/** The ledger's tables and the operations that change them, each proved to take one step of `Ledger`. */
module UsageLedger {
  import opened Common
  import opened Ledger
  import opened LedgerSafety

  /** Closing a list of buckets one after another, and how many of them were closed. */
  function CloseAll(l: Book, due: seq<nat>, now: int): (Book, nat)
    decreases |due|
  {
    if due == [] then (l, 0)
    else
      var (l1, k) := CloseAll(l, due[..|due| - 1], now);
      var (l2, done) := CloseStep(l1, due[|due| - 1], now);
      (l2, if done then k + 1 else k)
  }

  lemma CloseAllNext(l: Book, due: seq<nat>, i: nat, now: int)
    requires i < |due|
    ensures var (l1, k) := CloseAll(l, due[..i], now); var (l2, done) := CloseStep(l1, due[i], now);
      CloseAll(l, due[..i + 1], now) == (l2, if done then k + 1 else k)
  {
    assert due[..i + 1][..i] == due[..i];
  }

  class Tables {
    var entries: seq<Entry>
    var allocations: map<(nat, nat), int>
    var buckets: map<nat, Bucket>

    constructor ()
      ensures Contents() == EMPTY
    {
      entries, allocations, buckets := [], map[], map[];
    }

    function Contents(): Book
      reads this
    {
      Book(entries, allocations, buckets)
    }

    /** Inserts an entry unless its (user, kind, ref) is there; a grant's trigger opens its bucket. */
    method InsertEntry(e: Entry) returns (inserted: Option<nat>)
      modifies this
      ensures Find(old(entries), e.user, e.kind, e.ref).Some? ==> inserted.None? && Contents() == old(Contents())
      ensures Find(old(entries), e.user, e.kind, e.ref).None? ==>
        && inserted == Some(|old(entries)|)
        && Contents() == if IsGrant(e.kind) then OpenGrant(old(Contents()), e) else old(Contents()).(entries := old(entries) + [e])
    {
      if Find(entries, e.user, e.kind, e.ref).Some? { return None; }
      inserted := Some(|entries|);
      if IsGrant(e.kind) {
        buckets := buckets[|entries| := Bucket(e.user, e.kind, e.credits, e.credits, e.expiresAt, e.at)];
      }
      entries := entries + [e];
    }

    /** Inserts an entry's allocation rows; the row trigger moves each bucket. */
    method InsertAllocations(entry: nat, moves: map<nat, int>)
      modifies this`allocations, this`buckets
      ensures allocations == old(allocations) + RowsOf(entry, moves) && buckets == Adjusted(old(buckets), moves)
    {
      allocations := allocations + RowsOf(entry, moves);
      buckets := Adjusted(buckets, moves);
    }

    /** Records a new charge, reversal or expiry with its allocation rows. */
    method Record(e: Entry, moves: map<nat, int>) returns (entry: nat)
      requires !IsGrant(e.kind) && Find(entries, e.user, e.kind, e.ref).None?
      modifies this
      ensures entry == |old(entries)| && Contents() == Post(old(Contents()), e, moves)
    {
      var inserted := InsertEntry(e);
      entry := inserted.value;
      InsertAllocations(entry, moves);
    }

    method Grant(g: GrantInput, now: int) returns (r: Result<Written, Refusal>)
      requires IsGrant(g.kind)
      modifies this
      ensures (Contents(), r) == GrantStep(old(Contents()), g, now)
    {
      var inserted := InsertEntry(GrantEntry(g, "", now));
      if inserted.Some? { return Ok(Written(inserted.value, true)); }
      var existing := Find(entries, g.user, g.kind, Given(g.ref)).value;
      var x := entries[existing];
      if x.credits != g.credits || x.cash != g.cash || x.expiresAt != g.expiresAt { return Err(Mismatch); }
      r := Ok(Written(existing, false));
    }

    method GrantByPolicy(g: GrantInput, quote: Option<Quote>, now: int) returns (r: Result<Written, Refusal>)
      requires IsGrant(g.kind)
      modifies this
      ensures (Contents(), r) == PolicyGrantStep(old(Contents()), g, quote, now)
    {
      var existing := Find(entries, g.user, g.kind, Given(g.ref));
      if existing.Some? {
        var x := entries[existing.value];
        if x.cash == g.cash && x.expiresAt == g.expiresAt { return Ok(Written(existing.value, false)); }
        return Err(Mismatch);
      }
      if quote.None? { return Err(NoPolicy); }
      var inserted := InsertEntry(GrantEntry(g.(credits := quote.value.credits), quote.value.policyVersion, now));
      r := Ok(Written(inserted.value, true));
    }

    method ChargeUsage(c: ChargeInput, switch: Switch, active: bool, now: int) returns (r: Result<Charged, Refusal>)
      modifies this
      ensures (Contents(), r) == ChargeStep(old(Contents()), c, switch, active, now)
    {
      if switch != On { return Err(IsOff); }
      if c.credits > 0 && !active { return Err(AccountInactive); }
      var live := LiveBuckets(Contents(), c.user, now);
      var existing := Find(entries, c.user, Charge, Given(c.ref));
      if existing.Some? {
        r := CheckReplay(c, existing.value, live);
      } else {
        r := WriteCharge(c, live, now);
      }
    }

    method CheckReplay(c: ChargeInput, existing: nat, live: seq<Live>) returns (r: Result<Charged, Refusal>)
      requires existing < |entries|
      ensures r == ReplayCharge(Contents(), c, existing, live)
    {
      var x := entries[existing];
      if x.action != c.action || x.credits != -(c.credits as int) || x.cost != c.cost { return Err(Mismatch); }
      var reversal := FindReversal(entries, existing);
      if reversal.Some? { return Err(WasReversed); }
      r := Ok(Charged(existing, false, Total(live)));
    }

    method WriteCharge(c: ChargeInput, live: seq<Live>, now: int) returns (r: Result<Charged, Refusal>)
      requires Find(entries, c.user, Charge, Given(c.ref)).None?
      modifies this
      ensures (Contents(), r) == NewCharge(old(Contents()), c, PlanOf(live, c.credits), now)
    {
      var plan := PlanCharge(live, c.credits);
      if plan.Short? { return Err(Insufficient(plan.available, c.credits)); }
      var entry := Record(ChargeEntry(c, now), AsMoves(plan.allocations));
      r := Ok(Charged(entry, true, plan.available - c.credits));
    }

    /** The unique index on reversals never refuses here: the charge was just seen unreversed. */
    method ReverseCharge(user: string, ref: string, now: int) returns (r: Result<Written, Refusal>)
      requires Valid(Contents())
      modifies this
      ensures (Contents(), r) == ReverseStep(old(Contents()), user, ref, now)
    {
      var charge := Find(entries, user, Charge, Given(ref));
      if charge.None? { return Err(NotFound); }
      var already := FindReversal(entries, charge.value);
      if already.Some? { return Ok(Written(already.value, false)); }
      ghost var l := Contents();
      NoReversalStored(l, user, ref, charge.value);
      var taken := GivenBack(Contents(), charge.value);
      var entry := Record(ReversalEntry(Contents(), user, ref, charge.value, now), taken);
      r := Ok(Written(entry, true));
    }

    /** Under the user's lock, reads again what is left and closes it once. */
    method CloseBucket(bucket: nat, now: int) returns (done: bool)
      requires bucket in buckets ==> Expired(buckets[bucket].expiresAt, now)
      modifies this
      ensures (Contents(), done) == CloseStep(old(Contents()), bucket, now)
      ensures forall b | b in buckets :: b in old(buckets) && buckets[b].expiresAt == old(buckets)[b].expiresAt
    {
      if bucket !in buckets || buckets[bucket].remaining == 0 { return false; }
      var e := ExpiryEntry(Contents(), bucket, now);
      if Find(entries, e.user, Expiry, e.ref).Some? { return false; }
      var entry := Record(e, LeftToClose(Contents(), bucket));
      done := true;
    }

    /** The expiry sweep over a list of due buckets read earlier, possibly stale by now. */
    method ExpireBuckets(switch: Switch, due: seq<nat>, now: int) returns (expired: nat)
      requires forall b | b in due && b in buckets :: Expired(buckets[b].expiresAt, now)
      modifies this
      ensures switch == Off ==> Contents() == old(Contents()) && expired == 0
      ensures switch != Off ==> (Contents(), expired) == CloseAll(old(Contents()), due, now)
    {
      expired := 0;
      if switch == Off { return; }
      var i := 0;
      while i < |due|
        invariant 0 <= i <= |due|
        invariant (Contents(), expired) == CloseAll(old(Contents()), due[..i], now)
        invariant forall b | b in due && b in buckets :: Expired(buckets[b].expiresAt, now)
      {
        CloseAllNext(old(Contents()), due, i, now);
        var done := CloseBucket(due[i], now);
        if done { expired := expired + 1; }
        i := i + 1;
      }
      assert due[..i] == due;
    }
  }

  lemma {:induction false} SweepKeepsValid(l: Book, due: seq<nat>, now: int)
    requires Valid(l)
    ensures Valid(CloseAll(l, due, now).0)
    decreases |due|
  {
    if due != [] {
      SweepKeepsValid(l, due[..|due| - 1], now);
      CloseKeepsValid(CloseAll(l, due[..|due| - 1], now).0, due[|due| - 1], now);
    }
  }
}
