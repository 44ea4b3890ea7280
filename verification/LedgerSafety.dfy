/** What every run of the credit ledger keeps. */
module LedgerSafety {
  import opened Common
  import opened Sorting
  import opened Ledger

  // ------------------------------------------------------------------------------------------
  // Posting an entry with its allocations
  // ------------------------------------------------------------------------------------------

  /** What a charge, reversal or expiry must satisfy for the posting to keep the books. */
  ghost predicate Postable(l: Book, e: Entry, moves: map<nat, int>) {
    && !IsGrant(e.kind)
    && Find(l.entries, e.user, e.kind, e.ref).None?
    && (forall b | b in moves :: b in l.buckets && l.buckets[b].user == e.user && 0 <= l.buckets[b].remaining + moves[b])
    && Sum(|l.entries|, (b: nat) => At(moves, b)) == e.credits
    && (e.kind == Reversal ==> Undoable(l, e, moves))
    && (e.kind != Reversal ==> e.reverses.None? && forall b | b in moves :: moves[b] < 0)
    && (e.kind == Charge ==> e.credits <= 0)
    && (e.kind == Expiry ==> e.credits < 0 && e.ref.OfBucket? && e.ref.bucket in l.buckets)
  }

  /** A reversal names an unreversed charge and gives back what it took, bucket by bucket. */
  ghost predicate Undoable(l: Book, e: Entry, moves: map<nat, int>) {
    && e.reverses.Some? && e.reverses.value < |l.entries| && !Reversed(l.entries, e.reverses.value)
    && Undoes(e, l.entries[e.reverses.value])
    && forall b: nat :: At(moves, b) == -Moved(l, e.reverses.value, b)
  }

  lemma PostMoves(l: Book, e: Entry, moves: map<nat, int>)
    requires AllocationsOk(l)
    ensures var l' := Post(l, e, moves);
      forall i: nat, b: nat :: Moved(l', i, b) == if i == |l.entries| then At(moves, b) else Moved(l, i, b)
  {
    var l' := Post(l, e, moves);
    var n := |l.entries|;
    forall i: nat, b: nat
      ensures Moved(l', i, b) == if i == n then At(moves, b) else Moved(l, i, b)
    {
      assert (n, b) !in l.allocations;
      assert (i, b) in l'.allocations <==> (i, b) in l.allocations || (i == n && b in moves);
    }
  }

  lemma PostDraws(l: Book, e: Entry, moves: map<nat, int>, b: nat)
    requires AllocationsOk(l)
    ensures Drawn(Post(l, e, moves), b) == Drawn(l, b) + At(moves, b)
  {
    PostMoves(l, e, moves);
    var l' := Post(l, e, moves);
    SumSame(|l.entries|, (i: nat) => Moved(l, i, b), (i: nat) => Moved(l', i, b));
  }

  lemma NewEntryIsNotReversed(l: Book, e: Entry)
    requires EntriesOk(l) && (e.reverses.Some? ==> e.reverses.value < |l.entries|)
    ensures !Reversed(l.entries + [e], |l.entries|)
    ensures forall i: nat | i < |l.entries| ::
      Reversed(l.entries + [e], i) <==> Reversed(l.entries, i) || e.reverses == Some(i)
  {
    var es := l.entries + [e];
    forall r | 0 <= r < |es| ensures es[r].reverses != Some(|l.entries|) {
      if r < |l.entries| { assert EntryOk(l, r); }
    }
    forall i: nat | i < |l.entries|
      ensures Reversed(es, i) <==> Reversed(l.entries, i) || e.reverses == Some(i)
    {
      if Reversed(l.entries, i) {
        var r :| 0 <= r < |l.entries| && l.entries[r].reverses == Some(i);
        assert es[r].reverses == Some(i);
      }
      if e.reverses == Some(i) { assert es[|l.entries|].reverses == Some(i); }
    }
  }

  lemma OpenAfterPost(l: Book, e: Entry, moves: map<nat, int>, b: nat, i: nat)
    requires EntriesOk(l) && AllocationsOk(l) && i <= |l.entries|
    requires e.reverses.Some? ==> e.reverses.value < |l.entries|
    ensures Open(Post(l, e, moves), i, b) ==
      if i == |l.entries| then (if e.kind == Reversal then 0 else At(moves, b))
      else if e.reverses == Some(i) then 0 else Open(l, i, b)
  {
    PostMoves(l, e, moves);
    NewEntryIsNotReversed(l, e);
    assert Post(l, e, moves).entries == l.entries + [e];
  }

  lemma ReversalStillDraws(l: Book, e: Entry, moves: map<nat, int>, b: nat)
    requires EntriesOk(l) && AllocationsOk(l) && e.kind == Reversal
    requires e.reverses.Some? && e.reverses.value < |l.entries| && Open(l, e.reverses.value, b) == -At(moves, b)
    ensures StillDrawn(Post(l, e, moves), b) == StillDrawn(l, b) + At(moves, b)
  {
    var l', n := Post(l, e, moves), |l.entries|;
    var f, g := (i: nat) => Open(l, i, b), (i: nat) => Open(l', i, b);
    forall i: nat | i <= n ensures g(i) == if i == n || e.reverses == Some(i) then 0 else f(i) {
      OpenAfterPost(l, e, moves, b, i);
    }
    SumOneChanged(n, f, g, e.reverses.value);
  }

  lemma OtherStillDraws(l: Book, e: Entry, moves: map<nat, int>, b: nat)
    requires EntriesOk(l) && AllocationsOk(l) && e.kind != Reversal && e.reverses.None?
    ensures StillDrawn(Post(l, e, moves), b) == StillDrawn(l, b) + At(moves, b)
  {
    var l', n := Post(l, e, moves), |l.entries|;
    var f, g := (i: nat) => Open(l, i, b), (i: nat) => Open(l', i, b);
    forall i: nat | i <= n ensures g(i) == if i == n then At(moves, b) else f(i) {
      OpenAfterPost(l, e, moves, b, i);
    }
    SumSame(n, f, g);
  }

  /** Reversing removes a charge and its reversal together from what is still drawn. */
  lemma PostStillDraws(l: Book, e: Entry, moves: map<nat, int>, b: nat)
    requires EntriesOk(l) && AllocationsOk(l)
    requires e.kind == Reversal ==>
      e.reverses.Some? && e.reverses.value < |l.entries| && Open(l, e.reverses.value, b) == -At(moves, b)
    requires e.kind != Reversal ==> e.reverses.None?
    ensures StillDrawn(Post(l, e, moves), b) == StillDrawn(l, b) + At(moves, b)
  {
    if e.kind == Reversal { ReversalStillDraws(l, e, moves, b); } else { OtherStillDraws(l, e, moves, b); }
  }

  lemma PostKeepsEntries(l: Book, e: Entry, moves: map<nat, int>)
    requires EntriesOk(l) && Postable(l, e, moves)
    ensures EntriesOk(Post(l, e, moves))
  {
    var l' := Post(l, e, moves);
    forall i | 0 <= i < |l'.entries| ensures EntryOk(l', i) {
      if i < |l.entries| { assert EntryOk(l, i); }
    }
    forall i | 0 <= i < |l.entries| && l.entries[i].reverses.Some?
      ensures e.reverses != l.entries[i].reverses
    {
      assert EntryOk(l, i);
      if e.reverses == l.entries[i].reverses { assert Reversed(l.entries, e.reverses.value); }
    }
  }

  lemma PostKeepsMirrors(l: Book, e: Entry, moves: map<nat, int>)
    requires EntriesOk(l) && AllocationsOk(l) && Mirrors(l) && Postable(l, e, moves)
    ensures Mirrors(Post(l, e, moves))
  {
    PostMoves(l, e, moves);
    var l', n := Post(l, e, moves), |l.entries|;
    forall i, b: nat | 0 <= i < n + 1 && l'.entries[i].kind == Reversal && l'.entries[i].reverses.Some?
      ensures Moved(l', i, b) == -Moved(l', l'.entries[i].reverses.value, b)
    {
      if i < n {
        assert l'.entries[i] == l.entries[i] && EntryOk(l, i);
        assert Moved(l, i, b) == -Moved(l, l.entries[i].reverses.value, b);
      } else {
        assert At(moves, b) == -Moved(l, e.reverses.value, b);
      }
    }
  }

  lemma PostKeepsAllocations(l: Book, e: Entry, moves: map<nat, int>)
    requires AllocationsOk(l) && Postable(l, e, moves)
    ensures AllocationsOk(Post(l, e, moves))
  {
    var l' := Post(l, e, moves);
    forall i, b | (i, b) in l'.allocations
      ensures i < |l'.entries| && b in l'.buckets && AllocationOk(l', i, b)
    {
      if (i, b) in l.allocations {
        assert AllocationOk(l, i, b);
      } else {
        assert i == |l.entries| && b in moves;
      }
    }
  }

  lemma PostKeepsBalance(l: Book, e: Entry, moves: map<nat, int>)
    requires BucketsOk(l) && AllocationsOk(l) && EntriesBalanced(l) && Postable(l, e, moves)
    ensures EntriesBalanced(Post(l, e, moves))
  {
    PostMoves(l, e, moves);
    var l' := Post(l, e, moves);
    var n := |l.entries|;
    forall i | 0 <= i < |l'.entries| && !IsGrant(l'.entries[i].kind) ensures EntryBalanced(l', i) {
      assert Moved(l', i, n) == 0;
      if i < n {
        assert EntryBalanced(l, i);
        SumSame(n, (b: nat) => Moved(l, i, b), (b: nat) => Moved(l', i, b));
      } else {
        SumSame(n, (b: nat) => At(moves, b), (b: nat) => Moved(l', i, b));
      }
    }
  }

  lemma PostKeepsBuckets(l: Book, e: Entry, moves: map<nat, int>)
    requires EntriesOk(l) && BucketsOk(l) && AllocationsOk(l) && Postable(l, e, moves)
    ensures BucketsOk(Post(l, e, moves))
  {
    var l' := Post(l, e, moves);
    forall b | b in l'.buckets ensures b < |l'.entries| && BucketOk(l', b) {
      PostKeepsBucket(l, e, moves, b);
    }
  }

  lemma PostKeepsBucket(l: Book, e: Entry, moves: map<nat, int>, b: nat)
    requires EntriesOk(l) && AllocationsOk(l) && Postable(l, e, moves)
    requires b in l.buckets && b < |l.entries| && BucketOk(l, b)
    ensures BucketOk(Post(l, e, moves), b)
  {
    PostDraws(l, e, moves, b);
    OpenOfReversed(l, e, moves, b);
    PostStillDraws(l, e, moves, b);
  }

  lemma OpenOfReversed(l: Book, e: Entry, moves: map<nat, int>, b: nat)
    requires EntriesOk(l) && Postable(l, e, moves)
    ensures e.kind == Reversal ==>
      e.reverses.Some? && e.reverses.value < |l.entries| && Open(l, e.reverses.value, b) == -At(moves, b)
    ensures e.kind != Reversal ==> e.reverses.None?
  {
  }

  lemma PostAddsToEntries(l: Book, e: Entry, moves: map<nat, int>)
    ensures EntryTotal(Post(l, e, moves)) == EntryTotal(l) + e.credits
  {
    var n, l' := |l.entries|, Post(l, e, moves);
    var f, f' := (i: nat) => EntryCredits(l, i), (i: nat) => EntryCredits(l', i);
    SumSame(n, f, f');
    assert Sum(n + 1, f') == Sum(n, f') + f'(n);
  }

  lemma PostAddsToBuckets(l: Book, e: Entry, moves: map<nat, int>)
    requires |l.entries| !in l.buckets && forall b | b in moves :: b in l.buckets
    ensures BucketTotal(Post(l, e, moves)) == BucketTotal(l) + Sum(|l.entries|, (b: nat) => At(moves, b))
  {
    var n, l' := |l.entries|, Post(l, e, moves);
    var g, d, g' := (b: nat) => RemainingOf(l, b), (b: nat) => At(moves, b), (b: nat) => RemainingOf(l', b);
    SumPlus(n, g, d, g');
    assert Sum(n + 1, g') == Sum(n, g') + g'(n);
  }

  lemma PostKeepsTotals(l: Book, e: Entry, moves: map<nat, int>)
    requires BucketsOk(l) && TotalsAgree(l) && Postable(l, e, moves)
    ensures TotalsAgree(Post(l, e, moves))
  {
    assert |l.entries| !in l.buckets;
    PostAddsToEntries(l, e, moves);
    PostAddsToBuckets(l, e, moves);
  }

  /** Posting keeps the whole invariant: bounds, balance of each entry, and the grand total. */
  lemma PostKeepsValid(l: Book, e: Entry, moves: map<nat, int>)
    requires Valid(l) && Postable(l, e, moves)
    ensures Valid(Post(l, e, moves))
  {
    PostKeepsEntries(l, e, moves);
    PostKeepsMirrors(l, e, moves);
    PostKeepsAllocations(l, e, moves);
    PostKeepsBalance(l, e, moves);
    PostKeepsBuckets(l, e, moves);
    PostKeepsTotals(l, e, moves);
  }

  lemma GrantKeepsEntries(l: Book, e: Entry)
    requires EntriesOk(l) && IsGrant(e.kind) && e.credits > 0 && e.reverses.None?
    requires Find(l.entries, e.user, e.kind, e.ref).None?
    ensures EntriesOk(OpenGrant(l, e))
  {
    var l' := OpenGrant(l, e);
    forall i | 0 <= i < |l'.entries| ensures EntryOk(l', i) {
      if i < |l.entries| { assert EntryOk(l, i); }
    }
  }

  lemma GrantKeepsAllocations(l: Book, e: Entry)
    requires AllocationsOk(l) && BucketsOk(l)
    ensures AllocationsOk(OpenGrant(l, e))
  {
    var l' := OpenGrant(l, e);
    forall i, b | (i, b) in l'.allocations
      ensures i < |l'.entries| && b in l'.buckets && AllocationOk(l', i, b)
    {
      assert AllocationOk(l, i, b);
    }
  }

  lemma GrantKeepsBalance(l: Book, e: Entry)
    requires BucketsOk(l) && AllocationsOk(l) && EntriesBalanced(l) && IsGrant(e.kind)
    ensures EntriesBalanced(OpenGrant(l, e))
  {
    var l' := OpenGrant(l, e);
    var n := |l.entries|;
    forall i | 0 <= i < |l'.entries| && !IsGrant(l'.entries[i].kind) ensures EntryBalanced(l', i) {
      assert EntryBalanced(l, i);
      SumSame(n, (b: nat) => Moved(l, i, b), (b: nat) => Moved(l', i, b));
      assert Moved(l', i, n) == 0;
    }
  }

  lemma GrantKeepsMirrors(l: Book, e: Entry)
    requires EntriesOk(l) && Mirrors(l) && IsGrant(e.kind)
    ensures Mirrors(OpenGrant(l, e))
  {
    var l' := OpenGrant(l, e);
    forall i, b: nat | 0 <= i < |l'.entries| && l'.entries[i].kind == Reversal && l'.entries[i].reverses.Some?
      ensures Moved(l', i, b) == -Moved(l', l'.entries[i].reverses.value, b)
    {
      assert i < |l.entries| && EntryOk(l, i);
      var c := l.entries[i].reverses.value;
      assert Moved(l', i, b) == Moved(l, i, b) && Moved(l', c, b) == Moved(l, c, b);
    }
  }

  lemma NewBucketIsOk(l: Book, e: Entry)
    requires EntriesOk(l) && BucketsOk(l) && AllocationsOk(l)
    requires IsGrant(e.kind) && e.credits > 0 && e.reverses.None?
    ensures BucketOk(OpenGrant(l, e), |l.entries|)
  {
    var l', n := OpenGrant(l, e), |l.entries|;
    SumZero(n + 1, (i: nat) => Moved(l', i, n));
    SumZero(n + 1, (i: nat) => Open(l', i, n));
  }

  lemma GrantDrawsNothing(l: Book, e: Entry, b: nat)
    requires AllocationsOk(l)
    ensures Drawn(OpenGrant(l, e), b) == Drawn(l, b)
  {
    var l', n := OpenGrant(l, e), |l.entries|;
    assert (n, b) !in l.allocations;
    SumSame(n, (i: nat) => Moved(l, i, b), (i: nat) => Moved(l', i, b));
    assert Moved(l', n, b) == 0;
  }

  lemma GrantLeavesStillDrawn(l: Book, e: Entry, b: nat)
    requires EntriesOk(l) && AllocationsOk(l) && e.reverses.None?
    ensures StillDrawn(OpenGrant(l, e), b) == StillDrawn(l, b)
  {
    var l', n := OpenGrant(l, e), |l.entries|;
    assert l'.entries == l.entries + [e] && (n, b) !in l.allocations;
    NewEntryIsNotReversed(l, e);
    SumSame(n, (i: nat) => Open(l, i, b), (i: nat) => Open(l', i, b));
    assert Open(l', n, b) == 0;
  }

  lemma OldBucketStaysOk(l: Book, e: Entry, b: nat)
    requires EntriesOk(l) && BucketsOk(l) && AllocationsOk(l) && e.reverses.None? && b in l.buckets
    ensures b < |l.entries| && BucketOk(OpenGrant(l, e), b)
  {
    assert BucketOk(l, b);
    GrantDrawsNothing(l, e, b);
    GrantLeavesStillDrawn(l, e, b);
  }

  lemma GrantKeepsBuckets(l: Book, e: Entry)
    requires EntriesOk(l) && BucketsOk(l) && AllocationsOk(l)
    requires IsGrant(e.kind) && e.credits > 0 && e.reverses.None?
    ensures BucketsOk(OpenGrant(l, e))
  {
    NewBucketIsOk(l, e);
    forall b | b in OpenGrant(l, e).buckets && b != |l.entries| ensures b < |l.entries| && BucketOk(OpenGrant(l, e), b) {
      OldBucketStaysOk(l, e, b);
    }
  }

  lemma OpenGrantKeepsValid(l: Book, e: Entry)
    requires Valid(l) && IsGrant(e.kind) && e.credits > 0 && e.reverses.None?
    requires Find(l.entries, e.user, e.kind, e.ref).None?
    ensures Valid(OpenGrant(l, e))
  {
    var l' := OpenGrant(l, e);
    var n := |l.entries|;
    GrantKeepsEntries(l, e);
    GrantKeepsAllocations(l, e);
    GrantKeepsBalance(l, e);
    GrantKeepsMirrors(l, e);
    GrantKeepsBuckets(l, e);
    SumSame(n, (i: nat) => EntryCredits(l, i), (i: nat) => EntryCredits(l', i));
    SumSame(n, (b: nat) => RemainingOf(l, b), (b: nat) => RemainingOf(l', b));
  }

  // ------------------------------------------------------------------------------------------
  // The live buckets a charge draws on
  // ------------------------------------------------------------------------------------------

  lemma {:induction false} LiveBelowHolds(l: Book, user: string, now: int, n: nat)
    ensures forall y | y in LiveBelow(l, user, now, n) ::
      y.id < n && y.id in l.buckets && l.buckets[y.id].user == user && y.remaining > 0
      && y.remaining == l.buckets[y.id].remaining && !Expired(l.buckets[y.id].expiresAt, now)
    ensures forall i, j | 0 <= i < j < |LiveBelow(l, user, now, n)| ::
      LiveBelow(l, user, now, n)[i].id != LiveBelow(l, user, now, n)[j].id
  {
    if n > 0 { LiveBelowHolds(l, user, now, n - 1); }
  }

  lemma {:induction false} TotalAppends(s: seq<Live>, x: Live)
    ensures Total(s + [x]) == Total(s) + x.remaining
  {
    if s == [] { assert [] + [x] == [x]; } else {
      assert (s + [x])[1..] == s[1..] + [x];
      TotalAppends(s[1..], x);
    }
  }

  lemma {:induction false} TotalOfLiveBelow(l: Book, user: string, now: int, n: nat)
    requires forall b | b in l.buckets :: l.buckets[b].remaining >= 0
    ensures Total(LiveBelow(l, user, now, n)) == Sum(n, (b: nat) => LiveCredit(l, user, now, b))
  {
    if n > 0 {
      TotalOfLiveBelow(l, user, now, n - 1);
      SumSame(n - 1, (b: nat) => LiveCredit(l, user, now, b), (b: nat) => LiveCredit(l, user, now, b));
      var s := LiveBelow(l, user, now, n - 1);
      if LiveCredit(l, user, now, n - 1) > 0 {
        var b := n - 1;
        TotalAppends(s, Live(b, l.buckets[b].kind, l.buckets[b].remaining, l.buckets[b].expiresAt,
                             l.buckets[b].createdAt));
      } else {
        assert s + [] == s;
      }
    }
  }

  lemma {:induction false} InsertTotal(x: Live, s: seq<Live>)
    ensures Total(Insert(Before, x, s)) == x.remaining + Total(s)
  {
    if s == [] || !Before(s[0], x) {
      assert ([x] + s)[1..] == s;
    } else {
      InsertTotal(x, s[1..]);
      assert ([s[0]] + Insert(Before, x, s[1..]))[1..] == Insert(Before, x, s[1..]);
    }
  }

  lemma {:induction false} SortTotal(s: seq<Live>)
    ensures Total(SpendSorted(s)) == Total(s)
  {
    if s != [] {
      SortTotal(s[1..]);
      InsertTotal(s[0], Sorted(Before, s[1..]));
    }
  }

  /** Distinct ids survive sorting, so sorting twice (in SQL, then in the plan) changes nothing. */
  lemma {:induction false} SortOfSorted(s: seq<Live>)
    requires InOrder(Before, s)
    ensures SpendSorted(s) == s
  {
    if s != [] {
      SortOfSorted(s[1..]);
      assert |s| > 1 ==> !Before(s[1], s[0]);
      assert [s[0]] + s[1..] == s;
    }
  }

  lemma {:induction false} HoldingOfHolding(s: seq<Live>)
    requires forall y | y in s :: y.remaining > 0
    ensures Holding(s) == s
  {
    if s != [] { HoldingOfHolding(s[1..]); assert [s[0]] + s[1..] == s; }
  }

  ghost predicate DistinctIds(s: seq<Live>) {
    forall i, j | 0 <= i < j < |s| :: s[i].id != s[j].id
  }

  lemma {:induction false} InsertDistinct(x: Live, s: seq<Live>)
    requires DistinctIds(s) && forall y | y in s :: y.id != x.id
    ensures DistinctIds(Insert(Before, x, s))
  {
    if s == [] || !Before(s[0], x) {
    } else {
      InsertDistinct(x, s[1..]);
      InsertKeeps(Before, x, s[1..]);
      var r := Insert(Before, x, s[1..]);
      forall j | 0 <= j < |r| ensures r[j].id != s[0].id {
        assert r[j] in multiset(r);
        assert r[j] == x || r[j] in s[1..];
      }
    }
  }

  lemma {:induction false} SortDistinct(s: seq<Live>)
    requires DistinctIds(s)
    ensures DistinctIds(SpendSorted(s))
  {
    if s != [] {
      SortDistinct(s[1..]);
      SortedKeeps(Before, s[1..]);
      InsertDistinct(s[0], Sorted(Before, s[1..]));
    }
  }

  /** The rows a charge reads: this user's unexpired buckets with credit, in spend order, worth the balance. */
  lemma LiveBucketsAreTheBalance(l: Book, user: string, now: int)
    requires Valid(l)
    ensures var s := LiveBuckets(l, user, now);
      && InOrder(Before, s) && DistinctIds(s) && Total(s) == Balance(l, user, now)
      && SpendSorted(Holding(s)) == s
      && forall y | y in s :: y.id < |l.entries| && y.id in l.buckets && l.buckets[y.id].user == user
           && y.remaining > 0 && y.remaining == l.buckets[y.id].remaining
           && !Expired(l.buckets[y.id].expiresAt, now)
  {
    var raw := LiveBelow(l, user, now, |l.entries|);
    LiveBelowHolds(l, user, now, |l.entries|);
    TotalOfLiveBelow(l, user, now, |l.entries|);
    SpendOrderIsTotal();
    SortedSorts(Before, raw);
    SortedKeeps(Before, raw);
    SortTotal(raw);
    SortDistinct(raw);
    HoldingOfHolding(SpendSorted(raw));
    SortOfSorted(SpendSorted(raw));
  }

  // ------------------------------------------------------------------------------------------
  // From a plan to its allocation rows
  // ------------------------------------------------------------------------------------------

  ghost predicate DistinctBuckets(plan: seq<Allocation>) {
    forall i, j | 0 <= i < j < |plan| :: plan[i].bucket != plan[j].bucket
  }

  lemma {:induction false} MovesAreThePlan(plan: seq<Allocation>)
    requires DistinctBuckets(plan)
    ensures forall b | b in AsMoves(plan) :: exists k :: 0 <= k < |plan| && plan[k].bucket == b
    ensures forall k | 0 <= k < |plan| :: plan[k].bucket in AsMoves(plan) && AsMoves(plan)[plan[k].bucket] == plan[k].credits
  {
    if plan != [] {
      var rest := plan[1..];
      MovesAreThePlan(rest);
      forall b | b in AsMoves(plan) ensures exists k :: 0 <= k < |plan| && plan[k].bucket == b {
        if b != plan[0].bucket {
          assert b in AsMoves(rest);
          var k :| 0 <= k < |rest| && rest[k].bucket == b;
          assert plan[k + 1].bucket == b;
        }
      }
      forall k | 0 <= k < |plan|
        ensures plan[k].bucket in AsMoves(plan) && AsMoves(plan)[plan[k].bucket] == plan[k].credits
      {
        if k > 0 { assert rest[k - 1] == plan[k]; }
      }
    }
  }

  lemma {:induction false} MovesAddUp(plan: seq<Allocation>, n: nat)
    requires DistinctBuckets(plan) && forall a | a in plan :: a.bucket < n
    ensures Sum(n, (b: nat) => At(AsMoves(plan), b)) == Credits(plan)
  {
    if plan == [] {
      SumZero(n, (b: nat) => At(AsMoves(plan), b));
    } else {
      var rest := plan[1..];
      MovesAddUp(rest, n);
      MovesAreThePlan(rest);
      assert plan[0].bucket !in AsMoves(rest);
      SumOneChanged(n, (b: nat) => At(AsMoves(rest), b), (b: nat) => At(AsMoves(plan), b), plan[0].bucket);
    }
  }

  /** Which buckets a new charge draws on, and how much from each: the meaning of a successful plan. */
  ghost predicate DrawsInSpendOrder(l: Book, user: string, now: int, credits: int, plan: seq<Allocation>) {
    var s := LiveBuckets(l, user, now);
    && Credits(plan) == -credits
    && |plan| <= |s|
    && forall k | 0 <= k < |plan| ::
         && plan[k].bucket == s[k].id
         && 0 < -plan[k].credits <= s[k].remaining
         && (k + 1 < |plan| ==> -plan[k].credits == s[k].remaining)
  }

  lemma PlanDraws(l: Book, user: string, now: int, credits: nat)
    requires Valid(l)
    ensures match PlanOf(LiveBuckets(l, user, now), credits)
      case Short(available) => available == Balance(l, user, now) && available < credits
      case Covered(plan, available) =>
        available == Balance(l, user, now) && credits <= available && DrawsInSpendOrder(l, user, now, credits, plan)
  {
    LiveBucketsAreTheBalance(l, user, now);
    var s := LiveBuckets(l, user, now);
    if credits <= Total(s) { TakeIsGreedy(s, credits); }
  }

  lemma DrawnBucketsAreLive(l: Book, user: string, now: int, credits: nat)
    requires Valid(l) && credits <= Balance(l, user, now)
    ensures var plan := Take(LiveBuckets(l, user, now), credits);
      && DrawsInSpendOrder(l, user, now, credits, plan)
      && DistinctBuckets(plan)
      && forall a | a in plan :: a.bucket < |l.entries| && a.bucket in l.buckets && a.credits < 0
           && l.buckets[a.bucket].user == user && 0 <= l.buckets[a.bucket].remaining + a.credits
           && !Expired(l.buckets[a.bucket].expiresAt, now)
  {
    LiveBucketsAreTheBalance(l, user, now);
    PlanDraws(l, user, now, credits);
    var s := LiveBuckets(l, user, now);
    var plan := Take(s, credits);
    forall i, j | 0 <= i < j < |plan| ensures plan[i].bucket != plan[j].bucket {
      assert s[i].id != s[j].id;
    }
    forall a | a in plan
      ensures a.bucket < |l.entries| && a.bucket in l.buckets && a.credits < 0
      ensures l.buckets[a.bucket].user == user && 0 <= l.buckets[a.bucket].remaining + a.credits
      ensures !Expired(l.buckets[a.bucket].expiresAt, now)
    {
      var k :| 0 <= k < |plan| && plan[k] == a;
      assert s[k] in s;
    }
  }

  lemma ChargeIsPostable(l: Book, c: ChargeInput, now: int)
    requires Valid(l) && Find(l.entries, c.user, Charge, Given(c.ref)).None?
    requires c.credits <= Balance(l, c.user, now)
    ensures Postable(l, ChargeEntry(c, now), AsMoves(Take(LiveBuckets(l, c.user, now), c.credits)))
  {
    DrawnBucketsAreLive(l, c.user, now, c.credits);
    var plan := Take(LiveBuckets(l, c.user, now), c.credits);
    MovesAddUp(plan, |l.entries|);
    MovesAreThePlan(plan);
    var moves := AsMoves(plan);
    forall b | b in moves
      ensures b in l.buckets && l.buckets[b].user == c.user && moves[b] < 0 && 0 <= l.buckets[b].remaining + moves[b]
    {
      var k :| 0 <= k < |plan| && plan[k].bucket == b;
      assert plan[k] in plan;
    }
  }

  lemma ReversalIsPostable(l: Book, user: string, ref: string, c: nat, now: int)
    requires Valid(l) && Find(l.entries, user, Charge, Given(ref)) == Some(c)
    requires FindReversal(l.entries, c).None?
    ensures Postable(l, ReversalEntry(l, user, ref, c, now), GivenBack(l, c))
  {
    var moves := GivenBack(l, c);
    forall b: nat ensures At(moves, b) == -Moved(l, c, b) {
      if (c, b) in l.allocations { assert AllocationOk(l, c, b); }
    }
    forall b | b in moves ensures moves[b] > 0 && l.buckets[b].user == user && l.buckets[b].remaining >= 0 {
      assert AllocationOk(l, c, b);
      assert BucketOk(l, b);
    }
    assert EntryBalanced(l, c);
    SumPlus(|l.entries|, (b: nat) => Moved(l, c, b), (b: nat) => At(moves, b), (b: nat) => 0);
    SumZero(|l.entries|, (b: nat) => 0);
    NoReversalStored(l, user, ref, c);
  }

  /** A reversal stored under a charge's reference reverses that charge. */
  lemma NoReversalStored(l: Book, user: string, ref: string, c: nat)
    requires EntriesOk(l) && Find(l.entries, user, Charge, Given(ref)) == Some(c)
    ensures Find(l.entries, user, Reversal, Given(ref)).Some? ==> Reversed(l.entries, c)
  {
    var found := Find(l.entries, user, Reversal, Given(ref));
    if found.Some? {
      assert EntryOk(l, found.value);
    }
  }

  lemma ExpiryIsPostable(l: Book, b: nat, now: int)
    requires Valid(l) && b in l.buckets && l.buckets[b].remaining != 0
    requires Find(l.entries, l.buckets[b].user, Expiry, OfBucket(b)).None?
    ensures Postable(l, ExpiryEntry(l, b, now), LeftToClose(l, b))
  {
    var moves := LeftToClose(l, b);
    SumOneChanged(|l.entries|, (x: nat) => 0, (x: nat) => At(moves, x), b);
    SumZero(|l.entries|, (x: nat) => 0);
  }

  // ------------------------------------------------------------------------------------------
  // Runs
  // ------------------------------------------------------------------------------------------

  /** One committed operation; nothing orders the clock readings of different operations. */
  datatype Op =
    | DoGrant(g: GrantInput, at: int)
    | DoPolicyGrant(g: GrantInput, quote: Option<Quote>, at: int)
    | DoCharge(c: ChargeInput, switch: Switch, active: bool, at: int)
    | DoReverse(user: string, ref: string, at: int)
    | DoClose(bucket: nat, at: int)

  /** What the input schemas and the policy promise of the values they pass on. */
  predicate WellFormed(op: Op) {
    match op
    case DoGrant(g, _) => g.kind in {Allowance, Taste, Referral, Topup} && g.credits > 0
    case DoPolicyGrant(g, quote, _) => g.kind in {Allowance, Taste, Referral, Topup} && (quote.Some? ==> quote.value.credits > 0)
    case _ => true
  }

  function Step(l: Book, op: Op): Book {
    match op
    case DoGrant(g, at) => GrantStep(l, g, at).0
    case DoPolicyGrant(g, quote, at) => PolicyGrantStep(l, g, quote, at).0
    case DoCharge(c, switch, active, at) => ChargeStep(l, c, switch, active, at).0
    case DoReverse(user, ref, at) => ReverseStep(l, user, ref, at).0
    case DoClose(bucket, at) => CloseStep(l, bucket, at).0
  }

  function Run(l: Book, ops: seq<Op>): Book
    decreases |ops|
  {
    if ops == [] then l else Run(Step(l, ops[0]), ops[1..])
  }

  lemma LivePlan(l: Book, user: string, now: int, credits: nat)
    requires Valid(l)
    ensures PlanOf(LiveBuckets(l, user, now), credits) ==
      if credits > Balance(l, user, now) then Short(Balance(l, user, now))
      else Covered(Take(LiveBuckets(l, user, now), credits), Balance(l, user, now))
  {
    LiveBucketsAreTheBalance(l, user, now);
  }

  /** The charge passes the switch, the account check and the replay check. */
  predicate IsNewCharge(l: Book, c: ChargeInput, switch: Switch, active: bool) {
    switch == On && (c.credits > 0 ==> active) && Find(l.entries, c.user, Charge, Given(c.ref)).None?
  }

  lemma NewChargeSteps(l: Book, c: ChargeInput, switch: Switch, active: bool, at: int, balance: int, plan: seq<Allocation>)
    requires IsNewCharge(l, c, switch, active)
    requires PlanOf(LiveBuckets(l, c.user, at), c.credits) ==
      if c.credits > balance then Short(balance) else Covered(plan, balance)
    ensures ChargeStep(l, c, switch, active, at) ==
      if c.credits > balance then (l, Err(Insufficient(balance, c.credits)))
      else (Post(l, ChargeEntry(c, at), AsMoves(plan)), Ok(Charged(|l.entries|, true, balance - c.credits)))
  {
    assert ChargeStep(l, c, switch, active, at) == NewCharge(l, c, PlanOf(LiveBuckets(l, c.user, at), c.credits), at);
  }

  lemma OtherChargeWritesNothing(l: Book, c: ChargeInput, switch: Switch, active: bool, at: int)
    requires !IsNewCharge(l, c, switch, active)
    ensures var r := ChargeStep(l, c, switch, active, at); r.0 == l && (r.1.Ok? ==> !r.1.value.changed)
  {
  }

  /** A charge that is new and affordable posts its plan; any other charge writes nothing. */
  lemma ChargeWritesAllOrNothing(l: Book, c: ChargeInput, switch: Switch, active: bool, at: int)
    requires Valid(l)
    ensures var r := ChargeStep(l, c, switch, active, at);
      var balance := Balance(l, c.user, at);
      var plan := Take(LiveBuckets(l, c.user, at), c.credits);
      if IsNewCharge(l, c, switch, active) && c.credits <= balance then
        && r == (Post(l, ChargeEntry(c, at), AsMoves(plan)), Ok(Charged(|l.entries|, true, balance - c.credits)))
        && DrawsInSpendOrder(l, c.user, at, c.credits, plan)
      else
        && r.0 == l && (r.1.Ok? ==> !r.1.value.changed)
        && (IsNewCharge(l, c, switch, active) ==> r.1 == Err(Insufficient(balance, c.credits)))
  {
    var balance := Balance(l, c.user, at);
    if IsNewCharge(l, c, switch, active) {
      LivePlan(l, c.user, at, c.credits);
      NewChargeSteps(l, c, switch, active, at, balance, Take(LiveBuckets(l, c.user, at), c.credits));
      if c.credits <= balance { DrawnBucketsAreLive(l, c.user, at, c.credits); }
    } else {
      OtherChargeWritesNothing(l, c, switch, active, at);
    }
  }

  lemma ChargeKeepsValid(l: Book, c: ChargeInput, switch: Switch, active: bool, at: int)
    requires Valid(l)
    ensures Valid(ChargeStep(l, c, switch, active, at).0)
  {
    ChargeWritesAllOrNothing(l, c, switch, active, at);
    if IsNewCharge(l, c, switch, active) && c.credits <= Balance(l, c.user, at) {
      ChargeIsPostable(l, c, at);
      PostKeepsValid(l, ChargeEntry(c, at), AsMoves(Take(LiveBuckets(l, c.user, at), c.credits)));
    }
  }

  lemma ReverseKeepsValid(l: Book, user: string, ref: string, at: int)
    requires Valid(l)
    ensures Valid(ReverseStep(l, user, ref, at).0)
  {
    var c := Find(l.entries, user, Charge, Given(ref));
    if c.Some? && FindReversal(l.entries, c.value).None? {
      ReversalIsPostable(l, user, ref, c.value, at);
      PostKeepsValid(l, ReversalEntry(l, user, ref, c.value, at), GivenBack(l, c.value));
    }
  }

  lemma CloseKeepsValid(l: Book, b: nat, at: int)
    requires Valid(l)
    ensures Valid(CloseStep(l, b, at).0)
  {
    if CloseStep(l, b, at).1 {
      ExpiryIsPostable(l, b, at);
      PostKeepsValid(l, ExpiryEntry(l, b, at), LeftToClose(l, b));
    }
  }

  /** Every operation keeps the invariant and only ever appends entries. */
  lemma StepKeepsValid(l: Book, op: Op)
    requires Valid(l) && WellFormed(op)
    ensures Valid(Step(l, op))
    ensures l.entries <= Step(l, op).entries
  {
    match op
    case DoGrant(g, at) =>
      if Find(l.entries, g.user, g.kind, Given(g.ref)).None? { OpenGrantKeepsValid(l, GrantEntry(g, "", at)); }
    case DoPolicyGrant(g, quote, at) =>
      if Find(l.entries, g.user, g.kind, Given(g.ref)).None? && quote.Some? {
        OpenGrantKeepsValid(l, GrantEntry(g.(credits := quote.value.credits), quote.value.policyVersion, at));
      }
    case DoCharge(c, switch, active, at) => ChargeKeepsValid(l, c, switch, active, at);
    case DoReverse(user, ref, at) => ReverseKeepsValid(l, user, ref, at);
    case DoClose(b, at) => CloseKeepsValid(l, b, at);
  }

  ghost predicate AllWellFormed(ops: seq<Op>) {
    forall op | op in ops :: WellFormed(op)
  }

  lemma {:induction false} RunKeepsValid(l: Book, ops: seq<Op>)
    requires Valid(l) && AllWellFormed(ops)
    ensures Valid(Run(l, ops))
    ensures |l.entries| <= |Run(l, ops).entries|
    ensures forall i | 0 <= i < |l.entries| :: Run(l, ops).entries[i] == l.entries[i]
    decreases |ops|
  {
    if ops != [] {
      StepKeepsValid(l, ops[0]);
      assert AllWellFormed(ops[1..]) by { assert forall op | op in ops[1..] :: op in ops; }
      RunKeepsValid(Step(l, ops[0]), ops[1..]);
    }
  }

  lemma RemainingIsBounded(l: Book, b: nat)
    requires Valid(l) && b in l.buckets
    ensures 0 <= l.buckets[b].remaining <= l.buckets[b].credits
  {
    var f := (i: nat) => Open(l, i, b);
    forall i: nat | i < |l.entries| ensures f(i) <= 0 {
      if (i, b) in l.allocations { assert AllocationOk(l, i, b); }
    }
    assert BucketOk(l, b);
    if |l.entries| > 0 { SumBelowTerm(|l.entries|, f, 0); }
  }

  /**
   * Every reachable ledger: each bucket holds between nothing and its grant, each entry that is not a
   * grant equals the sum of its allocations, and the entries add up to what the buckets hold.
   */
  lemma LedgerIsConserved(ops: seq<Op>)
    requires AllWellFormed(ops)
    ensures var l := Run(EMPTY, ops); var n := |l.entries|;
      && (forall b | b in l.buckets :: b < n && 0 <= l.buckets[b].remaining <= l.buckets[b].credits == l.entries[b].credits)
      && (forall i | 0 <= i < n && !IsGrant(l.entries[i].kind) ::
            EntryBalanced(l, i))
      && Sum(n, (i: nat) => EntryCredits(l, i)) == Sum(n, (b: nat) => RemainingOf(l, b))
  {
    RunKeepsValid(EMPTY, ops);
    var l := Run(EMPTY, ops);
    forall b | b in l.buckets ensures 0 <= l.buckets[b].remaining <= l.buckets[b].credits == l.entries[b].credits {
      assert BucketOk(l, b);
      RemainingIsBounded(l, b);
    }
  }

  // ------------------------------------------------------------------------------------------
  // Retries of one charge and its reversal
  // ------------------------------------------------------------------------------------------

  /** What entry `i` moved on `b` for the caller's key (user, ref), by charging or reversing. */
  ghost function MovedFor(l: Book, user: string, ref: string, i: nat, b: nat): int {
    if i < |l.entries| && l.entries[i].user == user && l.entries[i].ref == Given(ref)
       && (l.entries[i].kind == Charge || l.entries[i].kind == Reversal)
    then Moved(l, i, b) else 0
  }

  ghost function Net(l: Book, user: string, ref: string, b: nat): int {
    Sum(|l.entries|, (i: nat) => MovedFor(l, user, ref, i, b))
  }

  /** Nothing without a charge; nothing once reversed; otherwise what the charge itself took. */
  ghost predicate NetIsRight(l: Book, user: string, ref: string, b: nat) {
    match Find(l.entries, user, Charge, Given(ref))
    case None => Net(l, user, ref, b) == 0
    case Some(c) =>
      Moved(l, c, b) <= 0 && (Net(l, user, ref, b) == if Reversed(l.entries, c) then 0 else Moved(l, c, b))
  }

  lemma FindIsUnique(l: Book, i: nat)
    requires KeysDistinct(l.entries) && i < |l.entries|
    ensures Find(l.entries, l.entries[i].user, l.entries[i].kind, l.entries[i].ref) == Some(i)
  {
    var e := l.entries[i];
    var f := Find(l.entries, e.user, e.kind, e.ref);
    assert Matches(e, e.user, e.kind, e.ref);
  }

  /** Only the charge itself and its reversal move anything for (user, ref). */
  lemma MoversFor(l: Book, user: string, ref: string, i: nat, b: nat)
    requires Valid(l) && MovedFor(l, user, ref, i, b) != 0
    ensures var c := Find(l.entries, user, Charge, Given(ref));
      c.Some? && (c == Some(i) || l.entries[i].reverses == c)
  {
    FindIsUnique(l, i);
    assert EntryOk(l, i);
    if l.entries[i].kind == Reversal { FindIsUnique(l, l.entries[i].reverses.value); }
  }

  /**
   * However a charge and its reversal are retried and interleaved with anything else, the net effect on
   * every bucket is exactly one draw of the full amount, or nothing at all.
   */
  lemma NetEffectIsOneDrawOrNothing(ops: seq<Op>, user: string, ref: string)
    requires AllWellFormed(ops)
    ensures var l := Run(EMPTY, ops);
      var c := Find(l.entries, user, Charge, Given(ref));
      && (forall b: nat :: NetIsRight(l, user, ref, b))
      && (c.Some? ==> EntryBalanced(l, c.value) && l.entries[c.value].credits <= 0)
  {
    RunKeepsValid(EMPTY, ops);
    var l := Run(EMPTY, ops);
    forall b: nat ensures NetIsRight(l, user, ref, b) {
      NetOnBucket(l, user, ref, b);
    }
    var c := Find(l.entries, user, Charge, Given(ref));
    if c.Some? {
      assert EntryOk(l, c.value);
      assert EntryBalanced(l, c.value);
    }
  }

  /** Only the charge and its reversal, if there is one, move bucket `b` for this key. */
  lemma OthersDoNotMove(l: Book, user: string, ref: string, b: nat, i: nat)
    requires Valid(l) && i < |l.entries|
    ensures match Find(l.entries, user, Charge, Given(ref))
      case None => MovedFor(l, user, ref, i, b) == 0
      case Some(c) => i == c || FindReversal(l.entries, c) == Some(i) || MovedFor(l, user, ref, i, b) == 0
  {
    if MovedFor(l, user, ref, i, b) != 0 { MoversFor(l, user, ref, i, b); }
  }

  /** What the charge alone moves, as a sum over all entries. */
  lemma ChargeAlone(n: nat, f: nat -> int, c: nat)
    requires c < n
    ensures Sum(n, (i: nat) => if i == c then f(c) else 0) == f(c)
  {
    var zero, one := (i: nat) => 0, (i: nat) => if i == c then f(c) else 0;
    SumZero(n, zero);
    SumOneChanged(n, zero, one, c);
  }

  lemma NetOnBucket(l: Book, user: string, ref: string, b: nat)
    requires Valid(l)
    ensures NetIsRight(l, user, ref, b)
  {
    var n := |l.entries|;
    var f := (i: nat) => MovedFor(l, user, ref, i, b);
    forall i: nat | i < n { OthersDoNotMove(l, user, ref, b, i); }
    match Find(l.entries, user, Charge, Given(ref))
    case None => SumZero(n, f);
    case Some(c) => NetOnCharge(l, user, ref, b, c);
  }

  lemma NetOnCharge(l: Book, user: string, ref: string, b: nat, c: nat)
    requires Valid(l) && Find(l.entries, user, Charge, Given(ref)) == Some(c)
    ensures NetIsRight(l, user, ref, b)
  {
    var n := |l.entries|;
    var f := (i: nat) => MovedFor(l, user, ref, i, b);
    var one := (i: nat) => if i == c then f(c) else 0;
    if (c, b) in l.allocations { assert AllocationOk(l, c, b); }
    ChargeAlone(n, f, c);
    forall i: nat | i < n { OthersDoNotMove(l, user, ref, b, i); }
    match FindReversal(l.entries, c)
    case None => SumSame(n, one, f);
    case Some(r) =>
      assert EntryOk(l, r);
      SumOneChanged(n, one, f, r);
  }

  /** A reversed charge is never paid again: every later charge on its key is refused. */
  lemma ReversedIsNeverPaid(
    ops: seq<Op>, later: seq<Op>, charge: nat, c: ChargeInput, switch: Switch, active: bool, at: int)
    requires AllWellFormed(ops) && AllWellFormed(later)
    requires Find(Run(EMPTY, ops).entries, c.user, Charge, Given(c.ref)) == Some(charge)
    requires Reversed(Run(EMPTY, ops).entries, charge)
    ensures ChargeStep(Run(Run(EMPTY, ops), later), c, switch, active, at).1.Err?
  {
    RunKeepsValid(EMPTY, ops);
    var l := Run(EMPTY, ops);
    RunKeepsValid(l, later);
    var l' := Run(l, later);
    var r :| 0 <= r < |l.entries| && l.entries[r].reverses == Some(charge);
    assert l'.entries[r].reverses == Some(charge);
    ReversedChargeIsRefused(l', charge, c, switch, active, at);
  }

  lemma ReversedChargeIsRefused(l: Book, charge: nat, c: ChargeInput, switch: Switch, active: bool, at: int)
    requires EntriesOk(l) && charge < |l.entries| && Matches(l.entries[charge], c.user, Charge, Given(c.ref))
    requires Reversed(l.entries, charge)
    ensures ChargeStep(l, c, switch, active, at).1.Err?
  {
    FindIsUnique(l, charge);
  }

  // ------------------------------------------------------------------------------------------
  // The spendable balance
  // ------------------------------------------------------------------------------------------

  /** The part of a posting that lands on buckets this user can still spend. */
  ghost function Spendable(l: Book, user: string, now: int, moves: map<nat, int>, b: nat): int {
    if b in l.buckets && l.buckets[b].user == user && !Expired(l.buckets[b].expiresAt, now) then At(moves, b) else 0
  }

  lemma PostLiveCredit(l: Book, e: Entry, moves: map<nat, int>, user: string, now: int, b: nat)
    requires BucketsOk(l)
    ensures LiveCredit(Post(l, e, moves), user, now, b) ==
      LiveCredit(l, user, now, b) + Spendable(l, user, now, moves, b)
    ensures LiveCredit(Post(l, e, moves), user, now, |l.entries|) == 0
  {
    assert |l.entries| !in l.buckets;
  }

  lemma PostBalance(l: Book, e: Entry, moves: map<nat, int>, user: string, now: int)
    requires BucketsOk(l)
    ensures Balance(Post(l, e, moves), user, now) ==
      Balance(l, user, now) + Sum(|l.entries|, (b: nat) => Spendable(l, user, now, moves, b))
  {
    var l' := Post(l, e, moves);
    var n := |l.entries|;
    var f, d, g := (b: nat) => LiveCredit(l, user, now, b), (b: nat) => Spendable(l, user, now, moves, b),
                   (b: nat) => LiveCredit(l', user, now, b);
    forall b: nat ensures g(b) == f(b) + d(b) && g(n) == 0 {
      PostLiveCredit(l, e, moves, user, now, b);
    }
    SumPlus(n, f, d, g);
    assert Sum(n + 1, g) == Sum(n, g) + g(n);
  }

  /** A new charge lowers its user's balance by its amount and no one else's. */
  lemma ChargeLowersTheBalance(l: Book, c: ChargeInput, switch: Switch, active: bool, at: int, user: string)
    requires Valid(l)
    ensures var (l', r) := ChargeStep(l, c, switch, active, at);
      Balance(l', user, at) ==
        Balance(l, user, at) - (if r.Ok? && r.value.changed && user == c.user then c.credits else 0)
  {
    ChargeWritesAllOrNothing(l, c, switch, active, at);
    if IsNewCharge(l, c, switch, active) && c.credits <= Balance(l, c.user, at) {
      NewChargeBalance(l, c, at, user);
    }
  }

  lemma NewChargeBalance(l: Book, c: ChargeInput, at: int, user: string)
    requires Valid(l) && c.credits <= Balance(l, c.user, at)
    ensures Balance(Post(l, ChargeEntry(c, at), AsMoves(Take(LiveBuckets(l, c.user, at), c.credits))), user, at) ==
      Balance(l, user, at) - (if user == c.user then c.credits else 0)
  {
    DrawnBucketsAreLive(l, c.user, at, c.credits);
    var plan := Take(LiveBuckets(l, c.user, at), c.credits);
    PlanLandsOn(l, c.user, at, plan, user);
    PostBalance(l, ChargeEntry(c, at), AsMoves(plan), user, at);
  }

  /** The balance a charge reports, new or replayed, is the balance after it. */
  lemma ReportedBalanceIsTrue(l: Book, c: ChargeInput, switch: Switch, active: bool, at: int)
    requires Valid(l)
    ensures var r := ChargeStep(l, c, switch, active, at); r.1.Ok? ==> r.1.value.balance == Balance(r.0, c.user, at)
  {
    ChargeLowersTheBalance(l, c, switch, active, at, c.user);
    if IsNewCharge(l, c, switch, active) {
      ChargeWritesAllOrNothing(l, c, switch, active, at);
    } else {
      OtherChargeWritesNothing(l, c, switch, active, at);
      assert Total(LiveBuckets(l, c.user, at)) == Balance(l, c.user, at) by { LiveBucketsAreTheBalance(l, c.user, at); }
      ReplayReportsTotal(l, c, switch, active, at);
    }
  }

  lemma ReplayReportsTotal(l: Book, c: ChargeInput, switch: Switch, active: bool, at: int)
    requires !IsNewCharge(l, c, switch, active)
    ensures var r := ChargeStep(l, c, switch, active, at).1; r.Ok? ==> r.value.balance == Total(LiveBuckets(l, c.user, at))
  {
  }

  lemma PlanLandsOn(l: Book, owner: string, now: int, plan: seq<Allocation>, user: string)
    requires DistinctBuckets(plan)
    requires forall a | a in plan ::
      && a.bucket < |l.entries| && a.bucket in l.buckets
      && l.buckets[a.bucket].user == owner && !Expired(l.buckets[a.bucket].expiresAt, now)
    ensures Sum(|l.entries|, (b: nat) => Spendable(l, user, now, AsMoves(plan), b)) ==
      if user == owner then Credits(plan) else 0
  {
    var n := |l.entries|;
    MovesAreThePlan(plan);
    MovesAddUp(plan, n);
    forall b | b in AsMoves(plan)
      ensures b in l.buckets && l.buckets[b].user == owner && !Expired(l.buckets[b].expiresAt, now)
    {
      var k :| 0 <= k < |plan| && plan[k].bucket == b;
      assert plan[k] in plan;
    }
    if user == owner {
      SumSame(n, (b: nat) => At(AsMoves(plan), b), (b: nat) => Spendable(l, user, now, AsMoves(plan), b));
    } else {
      SumZero(n, (b: nat) => Spendable(l, user, now, AsMoves(plan), b));
    }
  }

  lemma GivenBackOnBucket(l: Book, user: string, ref: string, c: nat, b: nat)
    requires Valid(l) && Find(l.entries, user, Charge, Given(ref)) == Some(c)
    ensures b in l.buckets ==> At(GivenBack(l, c), b) == -Moved(l, c, b)
    ensures b in l.buckets && l.buckets[b].user != user ==> Moved(l, c, b) == 0
  {
    if (c, b) in l.allocations { assert AllocationOk(l, c, b); }
  }

  /** What reversing charge `c` adds to the spendable balance through bucket `b`. */
  ghost function ReturnedLive(l: Book, c: nat, now: int, b: nat): int {
    if b in l.buckets && !Expired(l.buckets[b].expiresAt, now) then -Moved(l, c, b) else 0
  }

  /**
   * A reversal returns credit to exactly the buckets its charge drew on; the spendable balance rises by
   * what went back to unexpired buckets only.
   */
  lemma ReversalReturnsToItsBuckets(l: Book, user: string, ref: string, at: int, c: nat)
    requires Valid(l) && Find(l.entries, user, Charge, Given(ref)) == Some(c) && FindReversal(l.entries, c).None?
    ensures var l' := ReverseStep(l, user, ref, at).0;
      && (forall b | b in l.buckets :: b in l'.buckets && l'.buckets[b].remaining == l.buckets[b].remaining - Moved(l, c, b))
      && Balance(l', user, at) == Balance(l, user, at) + Sum(|l.entries|, (b: nat) => ReturnedLive(l, c, at, b))
  {
    var e := ReversalEntry(l, user, ref, c, at);
    assert ReverseStep(l, user, ref, at).0 == Post(l, e, GivenBack(l, c));
    forall b | b in l.buckets ensures At(GivenBack(l, c), b) == -Moved(l, c, b) {
      GivenBackOnBucket(l, user, ref, c, b);
    }
    ReversalRaisesTheBalance(l, user, ref, at, c, e);
  }

  lemma ReversalRaisesTheBalance(l: Book, user: string, ref: string, at: int, c: nat, e: Entry)
    requires Valid(l) && Find(l.entries, user, Charge, Given(ref)) == Some(c)
    ensures Balance(Post(l, e, GivenBack(l, c)), user, at) ==
      Balance(l, user, at) + Sum(|l.entries|, (b: nat) => ReturnedLive(l, c, at, b))
  {
    var moves := GivenBack(l, c);
    forall b: nat ensures Spendable(l, user, at, moves, b) == ReturnedLive(l, c, at, b) {
      GivenBackOnBucket(l, user, ref, c, b);
    }
    PostBalance(l, e, moves, user, at);
    SumSame(|l.entries|, (b: nat) => Spendable(l, user, at, moves, b), (b: nat) => ReturnedLive(l, c, at, b));
  }

  lemma ClosedBucketIsNotSpendable(l: Book, bucket: nat, user: string, now: int, moves: map<nat, int>)
    requires bucket in l.buckets && Expired(l.buckets[bucket].expiresAt, now) && moves.Keys == {bucket}
    ensures forall b: nat :: Spendable(l, user, now, moves, b) == 0
  {
  }

  /** Closing an expired bucket changes no one's balance, then or later. */
  lemma ClosingChangesNoBalance(l: Book, bucket: nat, at: int, user: string, now: int)
    requires BucketsOk(l) && at <= now
    ensures Balance(CloseStep(l, bucket, at).0, user, now) == Balance(l, user, now)
  {
    if CloseStep(l, bucket, at).1 {
      var moves := LeftToClose(l, bucket);
      var d := (b: nat) => Spendable(l, user, now, moves, b);
      assert CloseStep(l, bucket, at).0 == Post(l, ExpiryEntry(l, bucket, at), moves);
      PostBalance(l, ExpiryEntry(l, bucket, at), moves, user, now);
      ClosedBucketIsNotSpendable(l, bucket, user, now, moves);
      SumZero(|l.entries|, d);
    }
  }

  /**
   * The sweep empties an expired bucket exactly when no earlier sweep closed it: credit a reversal returns
   * after the close stays in the bucket for good.
   */
  lemma SweepEmptiesUnlessClosedBefore(l: Book, bucket: nat, at: int)
    requires bucket in l.buckets && Expired(l.buckets[bucket].expiresAt, at)
    ensures RemainingOf(CloseStep(l, bucket, at).0, bucket) == 0 <==>
      RemainingOf(l, bucket) == 0 || Find(l.entries, l.buckets[bucket].user, Expiry, OfBucket(bucket)).None?
  {
  }

  /** A sweep has closed the bucket. */
  ghost predicate Closed(l: Book, b: nat) {
    b in l.buckets && Find(l.entries, l.buckets[b].user, Expiry, OfBucket(b)).Some?
  }

  /** Closed once is closed for good, and a bucket's owner and expiry never change. */
  lemma ClosedStays(l: Book, later: seq<Op>, b: nat)
    requires Valid(l) && AllWellFormed(later) && Closed(l, b)
    ensures var l' := Run(l, later);
      Closed(l', b) && l'.buckets[b].user == l.buckets[b].user && l'.buckets[b].expiresAt == l.buckets[b].expiresAt
  {
    RunKeepsValid(l, later);
    var l' := Run(l, later);
    assert BucketOk(l, b) && EntryOk(l', b) && BucketOk(l', b);
    var i := Find(l.entries, l.buckets[b].user, Expiry, OfBucket(b)).value;
    assert Matches(l'.entries[i], l.buckets[b].user, Expiry, OfBucket(b));
  }

  lemma OneStepClosedStays(l: Book, op: Op, b: nat)
    requires Valid(l) && WellFormed(op) && Closed(l, b)
    ensures Valid(Step(l, op)) && Closed(Step(l, op), b)
    ensures Step(l, op).buckets[b].expiresAt == l.buckets[b].expiresAt
  {
    StepKeepsValid(l, op);
    assert [op][1..] == [] && Run(l, [op]) == Step(l, op);
    ClosedStays(l, [op], b);
  }

  lemma PlanSparesExpired(l: Book, user: string, at: int, credits: nat, b: nat)
    requires Valid(l) && credits <= Balance(l, user, at) && b in l.buckets && Expired(l.buckets[b].expiresAt, at)
    ensures b !in AsMoves(Take(LiveBuckets(l, user, at), credits))
  {
    var plan := Take(LiveBuckets(l, user, at), credits);
    DrawnBucketsAreLive(l, user, at, credits);
    MovesAreThePlan(plan);
    forall k | 0 <= k < |plan| ensures plan[k].bucket != b {
      assert plan[k] in plan;
    }
  }

  lemma ChargeSparesExpired(l: Book, c: ChargeInput, switch: Switch, active: bool, at: int, b: nat)
    requires Valid(l) && b in l.buckets && Expired(l.buckets[b].expiresAt, at)
    ensures RemainingOf(ChargeStep(l, c, switch, active, at).0, b) == RemainingOf(l, b)
  {
    LivePlan(l, c.user, at, c.credits);
    if c.credits <= Balance(l, c.user, at) { PlanSparesExpired(l, c.user, at, c.credits, b); }
  }

  lemma ReversalOnlyReturns(l: Book, user: string, ref: string, at: int, b: nat)
    requires Valid(l) && b in l.buckets
    ensures RemainingOf(ReverseStep(l, user, ref, at).0, b) >= RemainingOf(l, b)
  {
    var c := Find(l.entries, user, Charge, Given(ref));
    if c.Some? && (c.value, b) in l.allocations { assert AllocationOk(l, c.value, b); }
  }

  /** No operation at or after its expiry takes anything out of a closed bucket. */
  lemma ClosedKeepsItsCredit(l: Book, op: Op, b: nat)
    requires Valid(l) && Closed(l, b) && Expired(l.buckets[b].expiresAt, op.at)
    ensures RemainingOf(Step(l, op), b) >= RemainingOf(l, b)
  {
    assert BucketOk(l, b);
    match op
    case DoGrant(_, _) =>
    case DoPolicyGrant(_, _, _) =>
    case DoCharge(c, switch, active, at) => ChargeSparesExpired(l, c, switch, active, at, b);
    case DoReverse(user, ref, at) => ReversalOnlyReturns(l, user, ref, at, b);
    case DoClose(_, _) =>
  }

  /** Nor does any run of such operations. */
  lemma {:induction false} ClosedCreditStays(l: Book, later: seq<Op>, b: nat)
    requires Valid(l) && AllWellFormed(later) && Closed(l, b)
    requires forall op | op in later :: Expired(l.buckets[b].expiresAt, op.at)
    ensures RemainingOf(Run(l, later), b) >= RemainingOf(l, b)
    decreases |later|
  {
    if later != [] {
      assert AllWellFormed(later[1..]) by { assert forall o | o in later[1..] :: o in later; }
      OneStepClosedStays(l, later[0], b);
      ClosedKeepsItsCredit(l, later[0], b);
      ClosedCreditStays(Step(l, later[0]), later[1..], b);
    }
  }

  lemma ReturnedToClosed(l: Book, user: string, ref: string, at: int, c: nat, bucket: nat) returns (returned: Book)
    requires Valid(l) && Find(l.entries, user, Charge, Given(ref)) == Some(c) && FindReversal(l.entries, c).None?
    requires Closed(l, bucket) && Moved(l, c, bucket) < 0
    ensures returned == ReverseStep(l, user, ref, at).0 && Valid(returned)
    ensures Closed(returned, bucket) && returned.buckets[bucket].expiresAt == l.buckets[bucket].expiresAt
    ensures RemainingOf(returned, bucket) > 0
  {
    returned := Step(l, DoReverse(user, ref, at));
    assert RemainingOf(returned, bucket) > 0 by {
      ReversalReturnsToItsBuckets(l, user, ref, at, c);
      assert BucketOk(l, bucket);
    }
    OneStepClosedStays(l, DoReverse(user, ref, at), bucket);
  }

  /**
   * Credit a reversal returns to a bucket already closed is stranded for good: after whatever follows it can be neither
   * spent nor swept, and operations at or after the expiry leave all of it there.
   */
  lemma ReturnedCreditIsStranded(l: Book, user: string, ref: string, at: int, c: nat, bucket: nat, now: int, later: seq<Op>)
    requires Valid(l) && Find(l.entries, user, Charge, Given(ref)) == Some(c) && FindReversal(l.entries, c).None?
    requires Closed(l, bucket) && Moved(l, c, bucket) < 0 && Expired(l.buckets[bucket].expiresAt, now)
    requires AllWellFormed(later)
    ensures var returned := ReverseStep(l, user, ref, at).0; var l' := Run(returned, later);
      && RemainingOf(returned, bucket) > 0
      && LiveCredit(l', user, now, bucket) == 0
      && (forall t :: CloseStep(l', bucket, t) == (l', false))
      && ((forall op | op in later :: op.at >= now) ==> RemainingOf(l', bucket) >= RemainingOf(returned, bucket))
  {
    var returned := ReturnedToClosed(l, user, ref, at, c, bucket);
    ClosedStays(returned, later, bucket);
    if forall op | op in later :: op.at >= now { ClosedCreditStays(returned, later, bucket); }
  }

  /** Such a ledger exists: 10 granted, 4 charged, and the other 6 closed at the expiry. */
  lemma ChargedThenClosed() returns (granting: Op, charging: Op, closing: Op, l1: Book, l2: Book, l: Book)
    ensures WellFormed(granting) && WellFormed(charging) && WellFormed(closing)
    ensures l1 == Step(EMPTY, granting) && l2 == Step(l1, charging) && l == Step(l2, closing)
    ensures Find(l.entries, "u", Charge, Given("c")) == Some(1) && FindReversal(l.entries, 1).None?
    ensures 0 in l.buckets && Moved(l, 1, 0) == -4 && l.buckets[0].expiresAt == Some(5)
    ensures Find(l.entries, "u", Expiry, OfBucket(0)) == Some(2)
  {
    closing := DoClose(0, 6);
    granting, charging, l1, l2 := GrantedThenCharged();
    l := CloseSix(l2);
  }

  /** The ledger after granting 10 and charging 4. */
  ghost predicate TenLessFour(l: Book) {
    && |l.entries| == 2 && IsGrant(l.entries[0].kind) && Matches(l.entries[1], "u", Charge, Given("c"))
    && l.entries[0].reverses.None? && l.entries[1].reverses.None?
    && l.allocations == map[(1, 0) := -4] && l.buckets == map[0 := Bucket("u", Taste, 10, 6, Some(5), 0)]
  }

  lemma GrantedThenCharged() returns (granting: Op, charging: Op, l1: Book, l2: Book)
    ensures WellFormed(granting) && WellFormed(charging)
    ensures l1 == Step(EMPTY, granting) && l2 == Step(l1, charging) && TenLessFour(l2)
  {
    var g := GrantInput("u", Taste, "g", 10, 0, Some(5));
    var c := ChargeInput("u", "c", "scan", 4, 0);
    granting, charging := DoGrant(g, 0), DoCharge(c, On, true, 1);
    GrantTen(g);
    l1 := Step(EMPTY, granting);
    ChargeFour(l1, c);
    l2 := Step(l1, charging);
    assert l2.entries == l1.entries + [ChargeEntry(c, 1)];
  }

  lemma GrantTen(g: GrantInput)
    requires g == GrantInput("u", Taste, "g", 10, 0, Some(5))
    ensures Step(EMPTY, DoGrant(g, 0)) ==
      Book([GrantEntry(g, "", 0)], map[], map[0 := Bucket("u", Taste, 10, 10, Some(5), 0)])
  {
  }

  lemma ChargeFour(l1: Book, c: ChargeInput)
    requires c == ChargeInput("u", "c", "scan", 4, 0)
    requires |l1.entries| == 1 && IsGrant(l1.entries[0].kind) && l1.allocations == map[]
    requires l1.buckets == map[0 := Bucket("u", Taste, 10, 10, Some(5), 0)]
    ensures Step(l1, DoCharge(c, On, true, 1)) ==
      Book(l1.entries + [ChargeEntry(c, 1)], map[(1, 0) := -4], map[0 := Bucket("u", Taste, 10, 6, Some(5), 0)])
  {
    var live := [Live(0, Taste, 10, Some(5), 0)];
    assert LiveBelow(l1, "u", 1, 0) == [];
    assert LiveBelow(l1, "u", 1, 1) == live && live[1..] == [];
    assert SpendSorted(live) == live && Holding(live) == live && Total(live) == 10;
    assert Take(live, 4) == [Allocation(0, -4)];
    assert [Allocation(0, -4)][1..] == [];
    assert AsMoves([Allocation(0, -4)]) == map[0 := -4];
    NewChargeSteps(l1, c, On, true, 1, 10, [Allocation(0, -4)]);
  }

  lemma TenLessFourReads(l: Book)
    requires TenLessFour(l)
    ensures Find(l.entries, "u", Expiry, OfBucket(0)).None?
    ensures Find(l.entries, "u", Charge, Given("c")) == Some(1) && FindReversal(l.entries, 1).None?
  {
    assert l.entries[..1][..0] == [];
    assert FindReversal(l.entries[..1], 1).None?;
  }

  lemma CloseSix(l: Book) returns (l': Book)
    requires TenLessFour(l)
    ensures l' == Step(l, DoClose(0, 6))
    ensures Find(l'.entries, "u", Charge, Given("c")) == Some(1) && FindReversal(l'.entries, 1).None?
    ensures 0 in l'.buckets && Moved(l', 1, 0) == -4 && l'.buckets[0].expiresAt == Some(5)
    ensures Find(l'.entries, "u", Expiry, OfBucket(0)) == Some(2)
  {
    TenLessFourReads(l);
    var e := ExpiryEntry(l, 0, 6);
    l' := Post(l, e, LeftToClose(l, 0));
    assert l'.entries[..2] == l.entries && l'.entries[2] == e;
  }
}
