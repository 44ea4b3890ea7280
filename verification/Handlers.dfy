/**
 * Running event handlers (packages/transport/src/handler.ts, trigger/event-tasks-wiring.ts): validation, the outbox,
 * retries by throwing, dead letters on the last attempt, and a list of handlers re-run as one.
 */
module Handlers {
  import opened Common
  import opened Publishing

  /** What validating the raw event against the handler's registry and type says. */
  datatype Verdict = NotAnEnvelope | WrongEvent | Accepted

  datatype Code = InvalidEvent | HandlerThrew | PublishFailed | Own(code: string)

  /** How `handle` ends: ok, an expected failure, or an exception. */
  datatype Answer = Done | Refused(code: string) | Raised

  /** Everything outside the wrapper that one attempt meets; a dead letter's record and its own publish may each throw. */
  datatype Work = Work(answer: Answer, outbox: seq<Envelope>, publishes: bool, records: bool, letterPublishes: bool)

  datatype Outcome = Rejected | Handled(emitted: nat) | DeadLettered(error: Code, attempts: nat)

  datatype Ran = Returned(outcome: Outcome) | Threw

  /** One observable effect of an attempt, by handler and attempt number. */
  datatype Entry =
    | Settled(handler: nat, attempt: nat, outcome: Outcome)
    | Published(handler: nat, attempt: nat, es: seq<Envelope>)
    | Letter(handler: nat, attempt: nat, error: Code)
    | Failed(handler: nat, attempt: nat)

  /** A list of handlers for one event, and what each attempt of each will meet. */
  datatype Plan = Plan(verdicts: seq<Verdict>, work: (nat, nat) -> Work, max: nat) {
    ghost predicate Valid() { max >= 1 }

    /** Recording a dead letter, its own event included, never fails. */
    ghost predicate TotalSink() {
      forall h, a :: SinkHolds(work(h, a))
    }
  }

  predicate SinkHolds(w: Work) {
    w.records && w.letterPublishes
  }

  predicate Succeeds(w: Work) {
    w.answer.Done? && (w.outbox == [] || w.publishes)
  }

  function ErrorOf(w: Work): Code {
    match w.answer
    case Done => PublishFailed
    case Refused(code) => Own(code)
    case Raised => HandlerThrew
  }

  function LetterEntries(h: nat, error: Code, w: Work, attempt: nat): seq<Entry> {
    (if w.records then [Letter(h, attempt, error)] else [])
    + if SinkHolds(w) then [Settled(h, attempt, DeadLettered(error, attempt))] else [Failed(h, attempt)]
  }

  /** Whether one run of handler `h` asks for another attempt. */
  predicate Throws(v: Verdict, w: Work, attempt: nat, max: nat) {
    match v
    case NotAnEnvelope => false
    case WrongEvent => !SinkHolds(w)
    case Accepted => !Succeeds(w) && (attempt < max || !SinkHolds(w))
  }

  /** What one run of handler `h` leaves behind. */
  function Effects(h: nat, v: Verdict, w: Work, attempt: nat, max: nat): seq<Entry> {
    match v
    case NotAnEnvelope => [Settled(h, attempt, Rejected)]
    case WrongEvent => LetterEntries(h, InvalidEvent, w, attempt)
    case Accepted =>
      if Succeeds(w) then
        (if w.outbox == [] then [] else [Published(h, attempt, w.outbox)]) + [Settled(h, attempt, Handled(|w.outbox|))]
      else if attempt < max then [Failed(h, attempt)]
      else LetterEntries(h, ErrorOf(w), w, attempt)
  }

  predicate NthThrows(p: Plan, h: nat, attempt: nat)
    requires h < |p.verdicts|
  {
    Throws(p.verdicts[h], p.work(h, attempt), attempt, p.max)
  }

  function NthEffects(p: Plan, h: nat, attempt: nat): seq<Entry>
    requires h < |p.verdicts|
  {
    Effects(h, p.verdicts[h], p.work(h, attempt), attempt, p.max)
  }

  /** Whether a handler from `h` on throws, which ends the attempt there. */
  predicate ListThrows(p: Plan, h: nat, attempt: nat)
    decreases |p.verdicts| - h
  {
    h < |p.verdicts| && (NthThrows(p, h, attempt) || ListThrows(p, h + 1, attempt))
  }

  function ListEffects(p: Plan, h: nat, attempt: nat): seq<Entry>
    decreases |p.verdicts| - h
  {
    if h >= |p.verdicts| then []
    else if NthThrows(p, h, attempt) then NthEffects(p, h, attempt)
    else NthEffects(p, h, attempt) + ListEffects(p, h + 1, attempt)
  }

  predicate Retries(p: Plan, attempt: nat) {
    ListThrows(p, 0, attempt) && attempt < p.max
  }

  /** The runtime's retries, from `attempt` on. */
  function DeliveryEffects(p: Plan, attempt: nat): seq<Entry>
    decreases p.max - attempt
  {
    if Retries(p, attempt) then ListEffects(p, 0, attempt) + DeliveryEffects(p, attempt + 1)
    else ListEffects(p, 0, attempt)
  }

  class Runtime {
    var log: seq<Entry>

    constructor ()
      ensures log == []
    {
      log := [];
    }

    method Publish(h: nat, attempt: nat, es: seq<Envelope>, ok: bool)
      modifies this
      ensures log == if ok then old(log) + [Published(h, attempt, es)] else old(log)
    {
      if ok { log := log + [Published(h, attempt, es)]; }
    }

    /** Records the letter, which may throw, then publishes the event the sink hands back, which may throw too. */
    method DeadLetter(h: nat, error: Code, w: Work, attempt: nat) returns (ran: Ran)
      modifies this
      ensures log == old(log) + LetterEntries(h, error, w, attempt)
      ensures ran == if SinkHolds(w) then Returned(DeadLettered(error, attempt)) else Threw
    {
      if w.records { log := log + [Letter(h, attempt, error)]; }
      if !SinkHolds(w) {
        log := log + [Failed(h, attempt)];
        return Threw;
      }
      log := log + [Settled(h, attempt, DeadLettered(error, attempt))];
      ran := Returned(DeadLettered(error, attempt));
    }

    method Run(h: nat, v: Verdict, w: Work, attempt: nat, max: nat) returns (ran: Ran)
      requires 1 <= attempt <= max
      modifies this
      ensures log == old(log) + Effects(h, v, w, attempt, max)
      ensures ran.Threw? <==> Throws(v, w, attempt, max)
      ensures ran.Returned? ==> Settled(h, attempt, ran.outcome) in Effects(h, v, w, attempt, max)
    {
      if v.NotAnEnvelope? {
        log := log + [Settled(h, attempt, Rejected)];
        return Returned(Rejected);
      }
      if v.WrongEvent? {
        ran := DeadLetter(h, InvalidEvent, w, attempt);
        return;
      }
      var outbox: seq<Envelope> := w.outbox;
      var result: Result<(), Code> := match w.answer
        case Done => Ok(())
        case Refused(code) => Err(Own(code))
        case Raised => Err(HandlerThrew);
      if result.Ok? && outbox != [] {
        Publish(h, attempt, outbox, w.publishes);
        if !w.publishes { result := Err(PublishFailed); }
      }
      if result.Ok? {
        log := log + [Settled(h, attempt, Handled(|outbox|))];
        return Returned(Handled(|outbox|));
      }
      if attempt < max {
        log := log + [Failed(h, attempt)];
        return Threw;
      }
      ran := DeadLetter(h, result.error, w, attempt);
    }

    method RunNth(p: Plan, h: nat, attempt: nat) returns (ran: Ran)
      requires h < |p.verdicts| && 1 <= attempt <= p.max
      modifies this
      ensures log == old(log) + NthEffects(p, h, attempt) && (ran.Threw? <==> NthThrows(p, h, attempt))
    {
      ran := Run(h, p.verdicts[h], p.work(h, attempt), attempt, p.max);
    }

    /** Every handler in turn; a throw leaves the rest of the list to the next attempt. */
    method RunAllHandlers(p: Plan, attempt: nat) returns (threw: bool)
      requires 1 <= attempt <= p.max
      modifies this
      ensures log == old(log) + ListEffects(p, 0, attempt) && threw == ListThrows(p, 0, attempt)
    {
      threw := false;
      var h := 0;
      while h < |p.verdicts|
        invariant h <= |p.verdicts| && !threw
        invariant log + ListEffects(p, h, attempt) == old(log) + ListEffects(p, 0, attempt)
        invariant ListThrows(p, h, attempt) == ListThrows(p, 0, attempt)
      {
        ListGoesOn(p, h, attempt, log);
        var outcome := RunNth(p, h, attempt);
        if outcome.Threw? { return true; }
        h := h + 1;
      }
    }

    /** One consumer of a dispatched event. */
    method RunConsumer(p: Plan, h: nat, attempt: nat) returns (ran: Ran)
      requires h < |p.verdicts| && 1 <= attempt <= p.max
      modifies this
      ensures log == old(log) + NthEffects(p, h, attempt)
      ensures (ran.Returned? && ran.outcome.Handled?) <==> Handles(p, h, attempt)
      ensures (ran.Returned? && ran.outcome.DeadLettered?) <==> GivesUp(p, h, attempt)
    {
      ran := Run(h, p.verdicts[h], p.work(h, attempt), attempt, p.max);
    }

    /** `dispatchEvent`: every consumer runs, and a throw is only counted among the errors. */
    method DispatchEvent(p: Plan, attempt: nat) returns (tally: Tally)
      requires 1 <= attempt <= p.max
      modifies this
      ensures log == old(log) + DispatchEffects(p, |p.verdicts|, attempt)
      ensures tally.handled == Sum(|p.verdicts|, (h: nat) => if Handles(p, h, attempt) then 1 else 0)
      ensures tally.deadLettered == Sum(|p.verdicts|, (h: nat) => if GivesUp(p, h, attempt) then 1 else 0)
      ensures tally.handled + tally.deadLettered + tally.errors == if p.verdicts == [] then 1 else |p.verdicts|
    {
      if p.verdicts == [] { return Tally(0, 0, 1); }
      tally := Tally(0, 0, 0);
      for h := 0 to |p.verdicts|
        invariant log == old(log) + DispatchEffects(p, h, attempt)
        invariant tally.handled == Sum(h, (k: nat) => if Handles(p, k, attempt) then 1 else 0)
        invariant tally.deadLettered == Sum(h, (k: nat) => if GivesUp(p, k, attempt) then 1 else 0)
        invariant tally.handled + tally.deadLettered + tally.errors == h
      {
        var ran := RunConsumer(p, h, attempt);
        tally := Counted(tally, ran);
        DispatchGoesOn(p, h, attempt, old(log));
      }
    }

    /** The event runtime: attempts until one returns or none is left. */
    method Deliver(p: Plan)
      requires p.Valid()
      modifies this
      ensures log == old(log) + DeliveryEffects(p, 1)
    {
      var attempt := 1;
      RetriesGoOn(p, attempt, log);
      var threw := RunAllHandlers(p, attempt);
      while threw && attempt < p.max
        invariant 1 <= attempt <= p.max && threw == ListThrows(p, 0, attempt)
        invariant if Retries(p, attempt) then log + DeliveryEffects(p, attempt + 1) == old(log) + DeliveryEffects(p, 1)
                  else log == old(log) + DeliveryEffects(p, 1)
        decreases p.max - attempt
      {
        RetriesGoOn(p, attempt + 1, log);
        attempt := attempt + 1;
        threw := RunAllHandlers(p, attempt);
      }
    }
  }

  /** The consumer accepts the event, does its work and has its outbox out. */
  predicate Handles(p: Plan, h: nat, attempt: nat) {
    && h < |p.verdicts| && p.verdicts[h].Accepted?
    && p.work(h, attempt).answer.Done? && (p.work(h, attempt).outbox == [] || p.work(h, attempt).publishes)
  }

  /** It is given the wrong event, or fails with no attempt left, and the letter is stored and announced. */
  predicate GivesUp(p: Plan, h: nat, attempt: nat) {
    && h < |p.verdicts| && p.work(h, attempt).records && p.work(h, attempt).letterPublishes
    && (p.verdicts[h].WrongEvent? || (p.verdicts[h].Accepted? && !Handles(p, h, attempt) && attempt >= p.max))
  }

  datatype Tally = Tally(handled: nat, deadLettered: nat, errors: nat)

  function Counted(t: Tally, ran: Ran): (t': Tally)
    ensures t'.handled + t'.deadLettered + t'.errors == t.handled + t.deadLettered + t.errors + 1
  {
    match ran
    case Returned(Handled(_)) => t.(handled := t.handled + 1)
    case Returned(DeadLettered(_, _)) => t.(deadLettered := t.deadLettered + 1)
    case _ => t.(errors := t.errors + 1)
  }

  /** The first `n` consumers' effects, none cut short by another's throw. */
  function DispatchEffects(p: Plan, n: nat, attempt: nat): seq<Entry>
    requires n <= |p.verdicts|
  {
    if n == 0 then [] else DispatchEffects(p, n - 1, attempt) + NthEffects(p, n - 1, attempt)
  }

  lemma DispatchGoesOn(p: Plan, h: nat, attempt: nat, log: seq<Entry>)
    requires h < |p.verdicts|
    ensures log + DispatchEffects(p, h, attempt) + NthEffects(p, h, attempt) == log + DispatchEffects(p, h + 1, attempt)
  {
  }

  lemma {:induction false} DispatchedOnce(p: Plan, n: nat, attempt: nat, e: Entry)
    requires n <= |p.verdicts|
    ensures e in DispatchEffects(p, n, attempt) <==> e.handler < n && e in NthEffects(p, e.handler, attempt)
  {
    if n > 0 { DispatchedOnce(p, n - 1, attempt, e); }
  }

  /**
   * Dispatching hides a failure before the last attempt: the call returns, so nothing retries it, and the consumer is
   * left neither settled nor dead-lettered, if and only if that attempt failed with attempts left.
   */
  lemma DispatchDropsFailures(p: Plan, h: nat, attempt: nat)
    requires h < |p.verdicts| && p.TotalSink()
    ensures (forall e | e in DispatchEffects(p, |p.verdicts|, attempt) && e.handler == h :: !e.Settled? && !e.Letter?)
      <==> p.verdicts[h].Accepted? && !Succeeds(p.work(h, attempt)) && attempt < p.max
  {
    var v, w := p.verdicts[h], p.work(h, attempt);
    assert w.letterPublishes;
    forall e ensures e in DispatchEffects(p, |p.verdicts|, attempt) && e.handler == h <==> e in NthEffects(p, h, attempt) {
      DispatchedOnce(p, |p.verdicts|, attempt, e);
    }
    if !(v.Accepted? && !Succeeds(w) && attempt < p.max) {
      assert Settled(h, attempt, OutcomeOf(h, v, w, attempt, p.max)) in NthEffects(p, h, attempt);
    }
  }

  lemma ListGoesOn(p: Plan, h: nat, attempt: nat, ran: seq<Entry>)
    requires h < |p.verdicts|
    ensures NthThrows(p, h, attempt) ==> ran + ListEffects(p, h, attempt) == ran + NthEffects(p, h, attempt)
    ensures !NthThrows(p, h, attempt) ==>
      ran + ListEffects(p, h, attempt) == ran + NthEffects(p, h, attempt) + ListEffects(p, h + 1, attempt)
  {
  }

  lemma RetriesGoOn(p: Plan, attempt: nat, made: seq<Entry>)
    ensures Retries(p, attempt) ==>
      made + DeliveryEffects(p, attempt) == made + ListEffects(p, 0, attempt) + DeliveryEffects(p, attempt + 1)
    ensures !Retries(p, attempt) ==> made + DeliveryEffects(p, attempt) == made + ListEffects(p, 0, attempt)
  {
  }

  // ------------------------------------------------------------------------------------------
  // Whole deliveries
  // ------------------------------------------------------------------------------------------

  /** With a sink that never fails, the last attempt never throws. */
  lemma {:induction false} LastAttemptReturns(p: Plan, h: nat)
    requires p.TotalSink()
    ensures !ListThrows(p, h, p.max)
    decreases |p.verdicts| - h
  {
    if h < |p.verdicts| {
      assert SinkHolds(p.work(h, p.max));
      LastAttemptReturns(p, h + 1);
    }
  }

  /** The attempt the delivery ends at: the first that does not throw, or the last allowed. */
  function EndsAt(p: Plan, attempt: nat): (last: nat)
    ensures last >= attempt
    decreases p.max - attempt
  {
    if ListThrows(p, 0, attempt) && attempt < p.max then EndsAt(p, attempt + 1) else attempt
  }

  /** An attempt at handler `from` goes on to handler `h`: none between them throws. */
  predicate ReachedFrom(p: Plan, from: nat, h: nat, attempt: nat)
    requires h < |p.verdicts|
    decreases h - from
  {
    from >= h || (!NthThrows(p, from, attempt) && ReachedFrom(p, from + 1, h, attempt))
  }

  lemma {:induction false} ListHas(p: Plan, from: nat, h: nat, attempt: nat, e: Entry)
    requires from <= h < |p.verdicts| && e in NthEffects(p, h, attempt) && ReachedFrom(p, from, h, attempt)
    ensures e in ListEffects(p, from, attempt)
    decreases h - from
  {
    if from < h { ListHas(p, from + 1, h, attempt, e); }
  }

  lemma {:induction false} ListComesFrom(p: Plan, from: nat, attempt: nat, e: Entry)
    requires e in ListEffects(p, from, attempt)
    ensures from <= e.handler < |p.verdicts| && e.attempt == attempt
    ensures e in NthEffects(p, e.handler, attempt)
    decreases |p.verdicts| - from
  {
    if from < |p.verdicts| && e !in NthEffects(p, from, attempt) {
      ListComesFrom(p, from + 1, attempt, e);
    }
  }

  lemma {:induction false} DeliveryHas(p: Plan, from: nat, attempt: nat, e: Entry)
    requires from <= attempt <= EndsAt(p, from) && e in ListEffects(p, 0, attempt)
    ensures e in DeliveryEffects(p, from)
    decreases p.max - from
  {
    if from < attempt { DeliveryHas(p, from + 1, attempt, e); }
  }

  lemma {:induction false} DeliveryComesFrom(p: Plan, from: nat, e: Entry)
    requires e in DeliveryEffects(p, from)
    ensures from <= e.attempt <= EndsAt(p, from) && e in ListEffects(p, 0, e.attempt)
    decreases p.max - from
  {
    if e in ListEffects(p, 0, from) {
      ListComesFrom(p, 0, from, e);
    } else {
      DeliveryComesFrom(p, from + 1, e);
    }
  }

  lemma {:induction false} EndIsQuiet(p: Plan, from: nat)
    requires p.TotalSink() && from <= p.max
    ensures EndsAt(p, from) <= p.max && !ListThrows(p, 0, EndsAt(p, from))
    decreases p.max - from
  {
    LastAttemptReturns(p, 0);
    if ListThrows(p, 0, from) && from < p.max { EndIsQuiet(p, from + 1); }
  }

  lemma {:induction false} QuietReachesAll(p: Plan, from: nat, attempt: nat, h: nat)
    requires from <= h < |p.verdicts| && !ListThrows(p, from, attempt)
    ensures ReachedFrom(p, from, h, attempt) && !NthThrows(p, h, attempt)
    decreases |p.verdicts| - from
  {
    if from < h { QuietReachesAll(p, from + 1, attempt, h); }
  }

  function OutcomeOf(h: nat, v: Verdict, w: Work, attempt: nat, max: nat): Outcome {
    match v
    case NotAnEnvelope => Rejected
    case WrongEvent => DeadLettered(InvalidEvent, attempt)
    case Accepted => if Succeeds(w) then Handled(|w.outbox|) else DeadLettered(ErrorOf(w), attempt)
  }

  /** Over the whole retry sequence every handler in the list is handled, dead-lettered or rejected. */
  lemma EveryHandlerSettles(p: Plan, h: nat)
    requires p.Valid() && p.TotalSink() && h < |p.verdicts|
    ensures exists a, outcome :: Settled(h, a, outcome) in DeliveryEffects(p, 1)
  {
    EndIsQuiet(p, 1);
    var a := EndsAt(p, 1);
    QuietReachesAll(p, 0, a, h);
    var outcome := OutcomeOf(h, p.verdicts[h], p.work(h, a), a, p.max);
    assert SinkHolds(p.work(h, a));
    ListHas(p, 0, h, a, Settled(h, a, outcome));
    DeliveryHas(p, 1, a, Settled(h, a, outcome));
  }

  /** Nothing is published from an attempt whose `handle` failed; what is published is that attempt's whole outbox. */
  lemma PublishedOnlyAfterHandling(p: Plan, e: Entry)
    requires e in DeliveryEffects(p, 1) && e.Published?
    ensures e.handler < |p.verdicts| && p.verdicts[e.handler].Accepted?
    ensures var w := p.work(e.handler, e.attempt); w.answer.Done? && e.es == w.outbox != []
  {
    DeliveryComesFrom(p, 1, e);
    ListComesFrom(p, 0, e.attempt, e);
  }

  /** A handled outcome means its outbox went out in the same attempt. */
  lemma HandledMeansPublished(p: Plan, h: nat, a: nat, emitted: nat)
    requires Settled(h, a, Handled(emitted)) in DeliveryEffects(p, 1)
    ensures emitted == |p.work(h, a).outbox|
    ensures emitted > 0 ==> Published(h, a, p.work(h, a).outbox) in DeliveryEffects(p, 1)
  {
    var e := Settled(h, a, Handled(emitted));
    DeliveryComesFrom(p, 1, e);
    ListComesFrom(p, 0, a, e);
    if emitted > 0 {
      SettledWasReached(p, 0, a, e);
      ListHas(p, 0, h, a, Published(h, a, p.work(h, a).outbox));
      DeliveryHas(p, 1, a, Published(h, a, p.work(h, a).outbox));
    }
  }

  lemma {:induction false} SettledWasReached(p: Plan, from: nat, attempt: nat, e: Entry)
    requires e in ListEffects(p, from, attempt)
    ensures from <= e.handler < |p.verdicts| && ReachedFrom(p, from, e.handler, attempt)
    decreases |p.verdicts| - from
  {
    ListComesFrom(p, from, attempt, e);
    if e !in NthEffects(p, from, attempt) { SettledWasReached(p, from + 1, attempt, e); }
  }

  // ------------------------------------------------------------------------------------------
  // Counting dead letters
  // ------------------------------------------------------------------------------------------

  predicate IsLetterOf(e: Entry, h: nat) {
    e.Letter? && e.handler == h
  }

  function LettersOf(log: seq<Entry>, h: nat): nat {
    if log == [] then 0 else LettersOf(log[..|log| - 1], h) + if IsLetterOf(log[|log| - 1], h) then 1 else 0
  }

  lemma {:induction false} LettersAdd(xs: seq<Entry>, ys: seq<Entry>, h: nat)
    ensures LettersOf(xs + ys, h) == LettersOf(xs, h) + LettersOf(ys, h)
  {
    if ys == [] {
      assert xs + ys == xs;
    } else {
      LettersAdd(xs, ys[..|ys| - 1], h);
      assert (xs + ys)[..|xs + ys| - 1] == xs + ys[..|ys| - 1];
    }
  }

  lemma {:induction false} NoLetters(log: seq<Entry>, h: nat)
    requires forall e | e in log :: !IsLetterOf(e, h)
    ensures LettersOf(log, h) == 0
  {
    if log != [] {
      NoLetters(log[..|log| - 1], h);
    }
  }

  /** Whether a run of handler `h` records a dead letter. */
  predicate Gives(p: Plan, h: nat, attempt: nat)
    requires h < |p.verdicts|
  {
    var v, w := p.verdicts[h], p.work(h, attempt);
    w.records && (v.WrongEvent? || (v.Accepted? && !Succeeds(w) && attempt >= p.max))
  }

  lemma LettersOfOneRun(p: Plan, j: nat, h: nat, attempt: nat)
    requires j < |p.verdicts|
    ensures LettersOf(NthEffects(p, j, attempt), h) == if j == h && Gives(p, h, attempt) then 1 else 0
  {
    var effects := NthEffects(p, j, attempt);
    if j == h && Gives(p, h, attempt) {
      assert effects == effects[..1] + effects[1..];
      LettersAdd(effects[..1], effects[1..], h);
      NoLetters(effects[1..], h);
      assert effects[..1][..0] == [];
    } else {
      NoLetters(effects, h);
    }
  }

  lemma {:induction false} LettersOfOneAttempt(p: Plan, from: nat, h: nat, attempt: nat)
    requires h < |p.verdicts|
    ensures LettersOf(ListEffects(p, from, attempt), h) ==
      if from <= h && ReachedFrom(p, from, h, attempt) && Gives(p, h, attempt) then 1 else 0
    decreases |p.verdicts| - from
  {
    if from < |p.verdicts| {
      LettersOfOneRun(p, from, h, attempt);
      LettersOfOneAttempt(p, from + 1, h, attempt);
      LettersAdd(NthEffects(p, from, attempt), ListEffects(p, from + 1, attempt), h);
    }
  }

  /** The attempts of a delivery that get as far as handler `h` and dead-letter there. */
  function LettersExpected(p: Plan, h: nat, from: nat): nat
    requires h < |p.verdicts|
    decreases p.max - from
  {
    (if ReachedFrom(p, 0, h, from) && Gives(p, h, from) then 1 else 0)
    + if Retries(p, from) then LettersExpected(p, h, from + 1) else 0
  }

  lemma {:induction false} LettersOfDelivery(p: Plan, h: nat, from: nat)
    requires h < |p.verdicts|
    ensures LettersOf(DeliveryEffects(p, from), h) == LettersExpected(p, h, from)
    decreases p.max - from
  {
    LettersOfOneAttempt(p, 0, h, from);
    if Retries(p, from) {
      LettersOfDelivery(p, h, from + 1);
      LettersAdd(ListEffects(p, 0, from), DeliveryEffects(p, from + 1), h);
    }
  }

  lemma {:induction false} AcceptedWaitsForTheLast(p: Plan, h: nat, from: nat)
    requires p.TotalSink() && h < |p.verdicts| && p.verdicts[h].Accepted? && from <= p.max
    ensures LettersExpected(p, h, from) == if EndsAt(p, from) == p.max && !Succeeds(p.work(h, p.max)) then 1 else 0
    decreases p.max - from
  {
    if Retries(p, from) {
      AcceptedWaitsForTheLast(p, h, from + 1);
    } else if from == p.max {
      LastAttemptReturns(p, 0);
      QuietReachesAll(p, 0, p.max, h);
    } else {
      assert EndsAt(p, from) == from;
    }
  }

  /** A valid event is dead-lettered at most once: exactly when the delivery used its last attempt and that failed too. */
  lemma AcceptedLetters(p: Plan, h: nat)
    requires p.Valid() && p.TotalSink() && h < |p.verdicts| && p.verdicts[h].Accepted?
    ensures LettersOf(DeliveryEffects(p, 1), h) == if EndsAt(p, 1) == p.max && !Succeeds(p.work(h, p.max)) then 1 else 0
  {
    LettersOfDelivery(p, h, 1);
    AcceptedWaitsForTheLast(p, h, 1);
  }

  lemma {:induction false} AloneEndsAtItsFirstSuccess(p: Plan, from: nat)
    requires p.TotalSink() && |p.verdicts| == 1 && p.verdicts[0].Accepted? && 1 <= from <= p.max
    ensures EndsAt(p, from) == p.max && !Succeeds(p.work(0, p.max))
      <==> forall a | from <= a <= p.max :: !Succeeds(p.work(0, a))
    decreases p.max - from
  {
    assert ListThrows(p, 0, from) <==> NthThrows(p, 0, from);
    assert SinkHolds(p.work(0, from));
    if from < p.max {
      AloneEndsAtItsFirstSuccess(p, from + 1);
      assert (forall a | from <= a <= p.max :: !Succeeds(p.work(0, a)))
        <==> !Succeeds(p.work(0, from)) && forall a | from + 1 <= a <= p.max :: !Succeeds(p.work(0, a));
    }
  }

  /**
   * A handler alone in its list: one dead letter at most, exactly when the event is invalid for it or no attempt
   * succeeded.
   */
  lemma SingleHandlerLetters(p: Plan)
    requires p.Valid() && p.TotalSink() && |p.verdicts| == 1
    ensures var letters := LettersOf(DeliveryEffects(p, 1), 0);
      && letters <= 1
      && (letters == 1 <==>
          p.verdicts[0].WrongEvent?
          || (p.verdicts[0].Accepted? && forall a | 1 <= a <= p.max :: !Succeeds(p.work(0, a))))
  {
    LettersOfDelivery(p, 0, 1);
    if p.verdicts[0].Accepted? {
      AcceptedWaitsForTheLast(p, 0, 1);
      AloneEndsAtItsFirstSuccess(p, 1);
    } else {
      assert SinkHolds(p.work(0, 1));
      assert !NthThrows(p, 0, 1) && !ListThrows(p, 1, 1);
    }
  }

  /** The attempts of a delivery that get as far as handler `h` while its sink records. */
  function AttemptsRecorded(p: Plan, h: nat, from: nat): nat
    requires h < |p.verdicts|
    decreases p.max - from
  {
    (if ReachedFrom(p, 0, h, from) && p.work(h, from).records then 1 else 0)
    + if Retries(p, from) then AttemptsRecorded(p, h, from + 1) else 0
  }

  lemma {:induction false} WrongEventGivesEachTime(p: Plan, h: nat, from: nat)
    requires h < |p.verdicts| && p.verdicts[h].WrongEvent?
    ensures LettersExpected(p, h, from) == AttemptsRecorded(p, h, from)
    decreases p.max - from
  {
    if Retries(p, from) { WrongEventGivesEachTime(p, h, from + 1); }
  }

  /**
   * In a list, an event invalid for handler `h` is dead-lettered once per attempt that reaches `h` and can record it,
   * because a later handler's retry re-runs `h` as well: once altogether if and only if there is one such attempt.
   */
  lemma WrongEventLetters(p: Plan, h: nat)
    requires p.Valid() && h < |p.verdicts| && p.verdicts[h].WrongEvent?
    ensures LettersOf(DeliveryEffects(p, 1), h) == AttemptsRecorded(p, h, 1)
  {
    LettersOfDelivery(p, h, 1);
    WrongEventGivesEachTime(p, h, 1);
  }

  /** For the first handler of a list, with a sink that records, that is every attempt made. */
  lemma {:induction false} FirstIsReachedEachTime(p: Plan, from: nat)
    requires |p.verdicts| > 0 && forall a :: p.work(0, a).records
    ensures AttemptsRecorded(p, 0, from) == EndsAt(p, from) - from + 1
    decreases p.max - from
  {
    if Retries(p, from) { FirstIsReachedEachTime(p, from + 1); }
  }

  /** With no sink at all an invalid event is lost: every attempt is used and no letter is left. */
  lemma NoSinkNoLetter(p: Plan)
    requires p.Valid() && |p.verdicts| == 1 && p.verdicts[0].WrongEvent? && forall a :: !p.work(0, a).records
    ensures LettersOf(DeliveryEffects(p, 1), 0) == 0 && EndsAt(p, 1) == p.max && ListThrows(p, 0, p.max)
  {
    WrongEventLetters(p, 0);
    NoneRecorded(p, 1);
  }

  lemma {:induction false} NoneRecorded(p: Plan, from: nat)
    requires |p.verdicts| == 1 && p.verdicts[0].WrongEvent? && 1 <= from <= p.max && forall a :: !p.work(0, a).records
    ensures AttemptsRecorded(p, 0, from) == 0 && EndsAt(p, from) == p.max && ListThrows(p, 0, p.max)
    decreases p.max - from
  {
    assert NthThrows(p, 0, from) && NthThrows(p, 0, p.max);
    if from < p.max { NoneRecorded(p, from + 1); }
  }

  /** Two handlers, the event invalid for the first, the second failing twice: three letters for one event. */
  lemma OneEventThreeLetters()
    ensures exists p: Plan :: p.Valid() && p.TotalSink() && LettersOf(DeliveryEffects(p, 1), 0) == 3
  {
    var work := (h: nat, a: nat) => Work(if h == 1 && a < 3 then Raised else Done, [], true, true, true);
    var p := Plan([WrongEvent, Accepted], work, 3);
    WrongEventLetters(p, 0);
    FirstIsReachedEachTime(p, 1);
    assert NthThrows(p, 1, 1) && NthThrows(p, 1, 2) && !NthThrows(p, 1, 3) && !NthThrows(p, 0, 3);
    assert ListThrows(p, 0, 1) && ListThrows(p, 0, 2);
    assert EndsAt(p, 3) == 3 && EndsAt(p, 2) == 3 && EndsAt(p, 1) == 3;
    assert p.TotalSink();
  }
}
