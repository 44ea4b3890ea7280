/**
 * The credit ledger (services/usage-ledger): append-only entries, one bucket per grant, and
 * allocation rows saying which bucket each charge, reversal or expiry moved.
 *
 * An entry's id is its position, so a grant's bucket carries the grant's position. Every operation
 * runs under its user's lock, so operations are steps on one ledger value; the class below keeps the
 * three tables and is proved to take exactly these steps.
 */
module Ledger {
  import opened Common
  import opened Sorting

  datatype Kind = Allowance | Taste | Referral | Topup | Charge | Reversal | Expiry

  /** Reference of an entry: the caller's key, or the bucket an expiry closes. */
  datatype Ref = Given(text: string) | OfBucket(bucket: nat)

  datatype Entry = Entry(
    user: string, kind: Kind, credits: int, action: string, ref: Ref, reverses: Option<nat>,
    cash: nat, cost: nat, expiresAt: Option<int>, policyVersion: string, at: int)

  datatype Bucket = Bucket(
    user: string, kind: Kind, credits: int, remaining: int, expiresAt: Option<int>, createdAt: int)

  datatype Allocation = Allocation(bucket: nat, credits: int)

  datatype Book = Book(entries: seq<Entry>, allocations: map<(nat, nat), int>, buckets: map<nat, Bucket>)

  const EMPTY := Book([], map[], map[])

  datatype Switch = Off | Shadow | On

  datatype Refusal =
    | IsOff | AccountInactive | Mismatch | NotFound | WasReversed | NoPolicy
    | Insufficient(balance: int, required: int)

  /** `entry` is the stored entry's id; `changed` is false when nothing was written. */
  datatype Written = Written(entry: nat, changed: bool)
  datatype Charged = Charged(entry: nat, changed: bool, balance: int)

  predicate IsGrant(k: Kind) {
    k in {Allowance, Taste, Referral, Topup}
  }

  predicate Expired(expiresAt: Option<int>, now: int) {
    expiresAt.Some? && expiresAt.value <= now
  }

  // ------------------------------------------------------------------------------------------
  // Reading the tables
  // ------------------------------------------------------------------------------------------

  /** The entry with this (user, kind, ref), if any. */
  function Find(entries: seq<Entry>, user: string, kind: Kind, ref: Ref): (r: Option<nat>)
    ensures r.Some? ==> r.value < |entries| && Matches(entries[r.value], user, kind, ref)
    ensures r.None? ==> forall i | 0 <= i < |entries| :: !Matches(entries[i], user, kind, ref)
  {
    if entries == [] then None
    else
      var last := |entries| - 1;
      if Matches(entries[last], user, kind, ref) then Some(last) else Find(entries[..last], user, kind, ref)
  }

  predicate Matches(e: Entry, user: string, kind: Kind, ref: Ref) {
    e.user == user && e.kind == kind && e.ref == ref
  }

  /** The entry that reverses this charge, if any. */
  function FindReversal(entries: seq<Entry>, charge: nat): (r: Option<nat>)
    ensures r.Some? ==> r.value < |entries| && entries[r.value].reverses == Some(charge)
    ensures r.None? ==> !Reversed(entries, charge)
  {
    if entries == [] then None
    else
      var last := |entries| - 1;
      if entries[last].reverses == Some(charge) then Some(last) else FindReversal(entries[..last], charge)
  }

  predicate Reversed(entries: seq<Entry>, charge: nat) {
    exists r :: 0 <= r < |entries| && entries[r].reverses == Some(charge)
  }

  /** Credits entry `i` moved on bucket `b` (0 when no allocation row joins them). */
  function Moved(l: Book, i: nat, b: nat): int {
    if (i, b) in l.allocations then l.allocations[(i, b)] else 0
  }

  function At(m: map<nat, int>, b: nat): int {
    if b in m then m[b] else 0
  }

  /** What bucket `b` adds to this user's spendable balance at `now`. */
  function LiveCredit(l: Book, user: string, now: int, b: nat): int {
    if b in l.buckets && l.buckets[b].user == user && !Expired(l.buckets[b].expiresAt, now)
    then l.buckets[b].remaining else 0
  }

  /** The spendable balance, from the bucket rows. */
  ghost function Balance(l: Book, user: string, now: int): int {
    Sum(|l.entries|, (b: nat) => LiveCredit(l, user, now, b))
  }

  // ------------------------------------------------------------------------------------------
  // Spend order and the charge plan
  // ------------------------------------------------------------------------------------------

  datatype Live = Live(id: nat, kind: Kind, remaining: int, expiresAt: Option<int>, createdAt: int)

  function Rank(k: Kind): nat {
    match k
    case Allowance => 1
    case Topup => 3
    case _ => 2
  }

  /** Spend order: rank, then earliest expiry (never-expiring last), then oldest, then id. */
  predicate Before(a: Live, b: Live) {
    if Rank(a.kind) != Rank(b.kind) then Rank(a.kind) < Rank(b.kind)
    else if a.expiresAt != b.expiresAt then
      a.expiresAt.Some? && (b.expiresAt.Some? ==> a.expiresAt.value < b.expiresAt.value)
    else if a.createdAt != b.createdAt then a.createdAt < b.createdAt
    else a.id < b.id
  }

  function SpendSorted(s: seq<Live>): seq<Live> {
    Sorted(Before, s)
  }

  function Holding(s: seq<Live>): seq<Live> {
    if s == [] then [] else (if s[0].remaining > 0 then [s[0]] else []) + Holding(s[1..])
  }

  function Total(s: seq<Live>): int {
    if s == [] then 0 else s[0].remaining + Total(s[1..])
  }

  /** The buckets below id `n` that hold credit for this user and have not expired. */
  function LiveBelow(l: Book, user: string, now: int, n: nat): seq<Live> {
    if n == 0 then []
    else
      var b := n - 1;
      LiveBelow(l, user, now, b) +
      (if LiveCredit(l, user, now, b) > 0
       then [Live(b, l.buckets[b].kind, l.buckets[b].remaining, l.buckets[b].expiresAt, l.buckets[b].createdAt)]
       else [])
  }

  function LiveBuckets(l: Book, user: string, now: int): seq<Live> {
    SpendSorted(LiveBelow(l, user, now, |l.entries|))
  }

  /** Takes `credits` from buckets already in spend order. */
  function Take(ordered: seq<Live>, credits: int): seq<Allocation> {
    if credits <= 0 || ordered == [] then []
    else
      var take := if credits < ordered[0].remaining then credits else ordered[0].remaining;
      [Allocation(ordered[0].id, -take)] + Take(ordered[1..], credits - take)
  }

  datatype Plan = Covered(allocations: seq<Allocation>, available: int) | Short(available: int)

  function PlanOf(buckets: seq<Live>, credits: int): Plan {
    var ordered := SpendSorted(Holding(buckets));
    if credits > Total(ordered) then Short(Total(ordered)) else Covered(Take(ordered, credits), Total(ordered))
  }

  /** The charge plan as the source computes it, one bucket at a time. */
  method PlanCharge(buckets: seq<Live>, credits: nat) returns (plan: Plan)
    ensures plan == PlanOf(buckets, credits)
  {
    var ordered := SpendSorted(Holding(buckets));
    var available := Total(ordered);
    if credits > available { return Short(available); }
    var allocations: seq<Allocation> := [];
    var left := credits;
    var i := 0;
    while i < |ordered|
      invariant 0 <= i <= |ordered| && left >= 0
      invariant allocations + Take(ordered[i..], left) == Take(ordered, credits)
    {
      if left == 0 { break; }
      var bucket := ordered[i];
      var take := if left < bucket.remaining then left else bucket.remaining;
      assert ordered[i..][1..] == ordered[i + 1..];
      allocations := allocations + [Allocation(bucket.id, -take)];
      left := left - take;
      i := i + 1;
    }
    plan := Covered(allocations, available);
  }

  function Credits(plan: seq<Allocation>): int {
    if plan == [] then 0 else plan[0].credits + Credits(plan[1..])
  }

  /** The spend order is total: buckets with different ids are never tied. */
  lemma SpendOrderIsTotal()
    ensures WeakOrder(Before)
    ensures forall a: Live, b: Live | a.id != b.id :: Before(a, b) || Before(b, a)
  {
  }

  lemma {:induction false} TotalIsNonNegative(s: seq<Live>)
    requires forall y | y in s :: y.remaining > 0
    ensures Total(s) >= 0
  {
    if s != [] { TotalIsNonNegative(s[1..]); }
  }

  /**
   * A covered plan draws the whole amount, drains every bucket it touches but the last, and never
   * reaches a bucket while an earlier one in spend order still holds credit.
   */
  lemma {:induction false} TakeIsGreedy(ordered: seq<Live>, credits: int)
    requires 0 <= credits <= Total(ordered)
    requires forall y | y in ordered :: y.remaining > 0
    ensures Credits(Take(ordered, credits)) == -credits
    ensures |Take(ordered, credits)| <= |ordered|
    ensures forall k | 0 <= k < |Take(ordered, credits)| ::
      Take(ordered, credits)[k].bucket == ordered[k].id
      && 0 < -Take(ordered, credits)[k].credits <= ordered[k].remaining
      && (k + 1 < |Take(ordered, credits)| ==> -Take(ordered, credits)[k].credits == ordered[k].remaining)
  {
    if credits > 0 && ordered != [] {
      var take := if credits < ordered[0].remaining then credits else ordered[0].remaining;
      TotalIsNonNegative(ordered[1..]);
      TakeIsGreedy(ordered[1..], credits - take);
    }
  }

  // ------------------------------------------------------------------------------------------
  // Steps
  // ------------------------------------------------------------------------------------------

  /** Appends a grant entry; the database opens its bucket. */
  function OpenGrant(l: Book, e: Entry): Book {
    Book(l.entries + [e], l.allocations,
         l.buckets[|l.entries| := Bucket(e.user, e.kind, e.credits, e.credits, e.expiresAt, e.at)])
  }

  /** Appends an entry with its allocation rows; the database moves each bucket. */
  function Post(l: Book, e: Entry, moves: map<nat, int>): Book {
    var n := |l.entries|;
    Book(l.entries + [e], l.allocations + RowsOf(n, moves), Adjusted(l.buckets, moves))
  }

  function RowsOf(entry: nat, moves: map<nat, int>): map<(nat, nat), int> {
    map b | b in moves :: (entry, b) := moves[b]
  }

  function Adjusted(buckets: map<nat, Bucket>, moves: map<nat, int>): map<nat, Bucket> {
    map b | b in buckets :: buckets[b].(remaining := buckets[b].remaining + At(moves, b))
  }

  function AsMoves(plan: seq<Allocation>): map<nat, int> {
    if plan == [] then map[] else AsMoves(plan[1..])[plan[0].bucket := plan[0].credits]
  }

  datatype GrantInput = GrantInput(
    user: string, kind: Kind, ref: string, credits: int, cash: nat, expiresAt: Option<int>)

  function GrantEntry(g: GrantInput, policyVersion: string, now: int): Entry {
    Entry(g.user, g.kind, g.credits, "", Given(g.ref), None, g.cash, 0, g.expiresAt, policyVersion, now)
  }

  /** `grant`: insert, or compare with what is stored. */
  function GrantStep(l: Book, g: GrantInput, now: int): (Book, Result<Written, Refusal>) {
    match Find(l.entries, g.user, g.kind, Given(g.ref))
    case None => (OpenGrant(l, GrantEntry(g, "", now)), Ok(Written(|l.entries|, true)))
    case Some(i) =>
      var x := l.entries[i];
      if x.credits != g.credits || x.cash != g.cash || x.expiresAt != g.expiresAt
      then (l, Err(Mismatch)) else (l, Ok(Written(i, false)))
  }

  datatype Quote = Quote(credits: int, policyVersion: string)

  /** `grantByPolicy`: a replay keeps the first value; the quote is read only for a new grant. */
  function PolicyGrantStep(l: Book, g: GrantInput, quote: Option<Quote>, now: int): (Book, Result<Written, Refusal>) {
    match Find(l.entries, g.user, g.kind, Given(g.ref))
    case Some(i) =>
      var x := l.entries[i];
      if x.cash == g.cash && x.expiresAt == g.expiresAt then (l, Ok(Written(i, false))) else (l, Err(Mismatch))
    case None =>
      if quote.None? then (l, Err(NoPolicy))
      else
        (OpenGrant(l, GrantEntry(g.(credits := quote.value.credits), quote.value.policyVersion, now)),
         Ok(Written(|l.entries|, true)))
  }

  datatype ChargeInput = ChargeInput(user: string, ref: string, action: string, credits: nat, cost: nat)

  function ChargeEntry(c: ChargeInput, now: int): Entry {
    Entry(c.user, Charge, -(c.credits as int), c.action, Given(c.ref), None, 0, c.cost, None, "", now)
  }

  /** A charge recorded before: compared, refused once reversed, else reported as it was. */
  function ReplayCharge(l: Book, c: ChargeInput, existing: nat, live: seq<Live>): Result<Charged, Refusal>
    requires existing < |l.entries|
  {
    var x := l.entries[existing];
    if x.action != c.action || x.credits != -(c.credits as int) || x.cost != c.cost then Err(Mismatch)
    else if FindReversal(l.entries, existing).Some? then Err(WasReversed)
    else Ok(Charged(existing, false, Total(live)))
  }

  /** A new charge: refused whole, or posted with its plan. */
  function NewCharge(l: Book, c: ChargeInput, plan: Plan, now: int): (Book, Result<Charged, Refusal>) {
    match plan
    case Short(available) => (l, Err(Insufficient(available, c.credits)))
    case Covered(allocations, available) =>
      (Post(l, ChargeEntry(c, now), AsMoves(allocations)), Ok(Charged(|l.entries|, true, available - c.credits)))
  }

  function ChargeStep(l: Book, c: ChargeInput, switch: Switch, active: bool, now: int)
    : (Book, Result<Charged, Refusal>)
  {
    if switch != On then (l, Err(IsOff))
    else if c.credits > 0 && !active then (l, Err(AccountInactive))
    else
      var live := LiveBuckets(l, c.user, now);
      match Find(l.entries, c.user, Charge, Given(c.ref))
      case Some(i) => (l, ReplayCharge(l, c, i, live))
      case None => NewCharge(l, c, PlanOf(live, c.credits), now)
  }

  /** What a reversal gives back: exactly what the charge took, bucket by bucket. */
  function GivenBack(l: Book, charge: nat): map<nat, int> {
    map b | b in l.buckets && (charge, b) in l.allocations :: -l.allocations[(charge, b)]
  }

  function ReversalEntry(l: Book, user: string, ref: string, charge: nat, now: int): Entry
    requires charge < |l.entries|
  {
    Entry(user, Reversal, -l.entries[charge].credits, "", Given(ref), Some(charge), 0, 0, None, "", now)
  }

  function ReverseStep(l: Book, user: string, ref: string, now: int): (Book, Result<Written, Refusal>) {
    match Find(l.entries, user, Charge, Given(ref))
    case None => (l, Err(NotFound))
    case Some(c) =>
      match FindReversal(l.entries, c)
      case Some(r) => (l, Ok(Written(r, false)))
      case None =>
        (Post(l, ReversalEntry(l, user, ref, c, now), GivenBack(l, c)), Ok(Written(|l.entries|, true)))
  }

  function ExpiryEntry(l: Book, b: nat, now: int): Entry
    requires b in l.buckets
  {
    Entry(l.buckets[b].user, Expiry, -l.buckets[b].remaining, "", OfBucket(b), None, 0, 0, None, "", now)
  }

  function LeftToClose(l: Book, b: nat): map<nat, int>
    requires b in l.buckets
  {
    map[b := -l.buckets[b].remaining]
  }

  /** One bucket of the expiry sweep, with its remaining credit read again under the lock. */
  function CloseStep(l: Book, b: nat, now: int): (Book, bool) {
    if b !in l.buckets || !Expired(l.buckets[b].expiresAt, now) || l.buckets[b].remaining == 0 then (l, false)
    else if Find(l.entries, l.buckets[b].user, Expiry, OfBucket(b)).Some? then (l, false)
    else (Post(l, ExpiryEntry(l, b, now), LeftToClose(l, b)), true)
  }

  // ------------------------------------------------------------------------------------------
  // The invariant of every reachable ledger
  // ------------------------------------------------------------------------------------------

  ghost predicate EntriesOk(l: Book) {
    && KeysDistinct(l.entries)
    && (forall i | 0 <= i < |l.entries| :: EntryOk(l, i))
  }

  /** The two unique indexes: one entry per (user, kind, ref), one reversal per charge. */
  ghost predicate KeysDistinct(entries: seq<Entry>) {
    forall i, j | 0 <= i < j < |entries| ::
      && !Matches(entries[j], entries[i].user, entries[i].kind, entries[i].ref)
      && (entries[i].reverses.Some? ==> entries[j].reverses != entries[i].reverses)
  }

  ghost predicate EntryOk(l: Book, i: nat)
    requires i < |l.entries|
  {
    var e := l.entries[i];
    if e.kind == Reversal then
      e.reverses.Some? && e.reverses.value < i && Undoes(e, l.entries[e.reverses.value])
    else
      && e.reverses.None?
      && (e.kind == Charge ==> e.credits <= 0)
      && (e.kind == Expiry ==> e.credits < 0 && e.ref.OfBucket? && e.ref.bucket in l.buckets)
      && (IsGrant(e.kind) ==> e.credits > 0 && i in l.buckets)
  }

  /** A reversal names a charge of the same user and reference, for the opposite amount. */
  predicate Undoes(e: Entry, charge: Entry) {
    charge.kind == Charge && charge.user == e.user && charge.ref == e.ref && e.credits == -charge.credits
  }

  ghost predicate BucketsOk(l: Book) {
    forall b | b in l.buckets :: b < |l.entries| && BucketOk(l, b)
  }

  ghost predicate BucketOk(l: Book, b: nat)
    requires b in l.buckets && b < |l.entries|
  {
    && IsGrant(l.entries[b].kind)
    && l.buckets[b].user == l.entries[b].user && l.buckets[b].credits == l.entries[b].credits
    && l.buckets[b].expiresAt == l.entries[b].expiresAt
    && l.buckets[b].kind == l.entries[b].kind && l.buckets[b].createdAt == l.entries[b].at
    && 0 <= l.buckets[b].remaining
    && l.buckets[b].remaining == l.buckets[b].credits + Drawn(l, b)
    && Drawn(l, b) == StillDrawn(l, b)
  }

  ghost predicate AllocationsOk(l: Book) {
    forall i, b | (i, b) in l.allocations :: i < |l.entries| && b in l.buckets && AllocationOk(l, i, b)
  }

  /** A charge or an expiry takes; a reversal gives back; a grant has no allocation. */
  ghost predicate AllocationOk(l: Book, i: nat, b: nat)
    requires i < |l.entries| && b in l.buckets && (i, b) in l.allocations
  {
    && l.entries[i].user == l.buckets[b].user && !IsGrant(l.entries[i].kind)
    && (l.entries[i].kind != Reversal ==> l.allocations[(i, b)] < 0)
  }

  /** Every charge, reversal and expiry equals the sum of its allocations. */
  ghost predicate EntriesBalanced(l: Book) {
    forall i | 0 <= i < |l.entries| && !IsGrant(l.entries[i].kind) :: EntryBalanced(l, i)
  }

  ghost predicate EntryBalanced(l: Book, i: nat)
    requires i < |l.entries|
  {
    Sum(|l.entries|, (b: nat) => Moved(l, i, b)) == l.entries[i].credits
  }

  /** A reversal mirrors its charge on every bucket. */
  ghost predicate Mirrors(l: Book) {
    forall i, b: nat | 0 <= i < |l.entries| && l.entries[i].kind == Reversal && l.entries[i].reverses.Some? ::
      Moved(l, i, b) == -Moved(l, l.entries[i].reverses.value, b)
  }

  /** Everything ever moved on bucket `b`. */
  ghost function Drawn(l: Book, b: nat): int {
    Sum(|l.entries|, (i: nat) => Moved(l, i, b))
  }

  /** The same, leaving out every reversal together with the charge it reverses. */
  ghost function StillDrawn(l: Book, b: nat): int {
    Sum(|l.entries|, (i: nat) => Open(l, i, b))
  }

  ghost function Open(l: Book, i: nat, b: nat): int {
    if i < |l.entries| && (l.entries[i].kind == Reversal || Reversed(l.entries, i)) then 0 else Moved(l, i, b)
  }

  function EntryCredits(l: Book, i: nat): int {
    if i < |l.entries| then l.entries[i].credits else 0
  }

  function RemainingOf(l: Book, b: nat): int {
    if b in l.buckets then l.buckets[b].remaining else 0
  }

  ghost function EntryTotal(l: Book): int {
    Sum(|l.entries|, (i: nat) => EntryCredits(l, i))
  }

  ghost function BucketTotal(l: Book): int {
    Sum(|l.entries|, (b: nat) => RemainingOf(l, b))
  }

  ghost predicate TotalsAgree(l: Book) {
    EntryTotal(l) == BucketTotal(l)
  }

  ghost predicate Valid(l: Book) {
    EntriesOk(l) && BucketsOk(l) && AllocationsOk(l) && EntriesBalanced(l) && Mirrors(l) && TotalsAgree(l)
  }
}
