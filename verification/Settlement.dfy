/**
 * Settling a provider call once (services/cost-meter): any number of settlers read the row, decide, and write only where
 * it is not settled yet; a loser reads again and answers from the winner's settlement.
 */
module Settlement {
  import opened Common

  /** A settlement's amount and the time it was read. */
  datatype Paid = Paid(micros: nat, at: int)

  /** A recorded call; `paid` is null until it is settled. */
  datatype Row = Row(apify: bool, currency: string, reserved: nat, paid: Option<Paid>)

  /** `final` says an Apify reading was taken late enough after the run finished. */
  datatype Input = Input(currency: string, micros: nat, at: int, final: bool)

  datatype Code = NotFound | Mismatch | AlreadySettled | NotFinal

  datatype Plan = Refuse(code: Code) | Replay | Write(paid: Paid)

  function PlanSettlement(row: Row, input: Input): Plan {
    if row.currency != input.currency then Refuse(Mismatch)
    else if row.paid.Some? then
      if row.paid.value.micros == input.micros then Replay else Refuse(AlreadySettled)
    else if row.apify && !input.final then Refuse(NotFinal)
    else Write(Paid(input.micros, input.at))
  }

  predicate Acceptable(row: Row, input: Input) {
    row.currency == input.currency && (row.apify ==> input.final)
  }

  // ------------------------------------------------------------------------------------------
  // Any number of settlers
  // ------------------------------------------------------------------------------------------

  /** Where one settler is, with its pass. */
  datatype Pc = Reading(pass: nat) | Writing(pass: nat, paid: Paid) | Changed | Unchanged | Refused(code: Code) | LostTheRace

  datatype State = State(row: Row, pcs: seq<Pc>)

  ghost predicate Starts(s: State, inputs: seq<Input>) {
    |s.pcs| == |inputs| && s.row.paid.None? && forall i | 0 <= i < |s.pcs| :: s.pcs[i] == Reading(0)
  }

  /** Settler `i` reads the row and decides. */
  ghost predicate Reads(s: State, inputs: seq<Input>, i: nat, t: State) {
    && i < |s.pcs| == |inputs| && s.pcs[i].Reading?
    && t == s.(pcs := s.pcs[i := match PlanSettlement(s.row, inputs[i])
        case Refuse(code) => Refused(code)
        case Replay => Unchanged
        case Write(paid) => Writing(s.pcs[i].pass, paid)])
  }

  /** Settler `i` writes where the row is still unsettled; a loser goes round once more, and then gives up. */
  ghost predicate Writes(s: State, i: nat, t: State) {
    && i < |s.pcs| && s.pcs[i].Writing?
    && t == if s.row.paid.None? then State(s.row.(paid := Some(s.pcs[i].paid)), s.pcs[i := Changed])
            else s.(pcs := s.pcs[i := if s.pcs[i].pass + 1 < 2 then Reading(s.pcs[i].pass + 1) else LostTheRace])
  }

  ghost predicate Step(s: State, inputs: seq<Input>, i: nat, t: State) {
    Reads(s, inputs, i, t) || Writes(s, i, t)
  }

  ghost predicate Run(states: seq<State>, who: seq<nat>, inputs: seq<Input>) {
    && |states| == |who| + 1 && Starts(states[0], inputs)
    && forall k | 0 <= k < |who| :: Step(states[k], inputs, who[k], states[k + 1])
  }

  /** What each place a settler can be in says about the row. */
  ghost predicate PcOk(row: Row, pc: Pc, input: Input) {
    match pc
    case Reading(pass) => pass <= 1 && (pass == 1 ==> row.paid.Some?)
    case Writing(pass, paid) => pass == 0 && paid == Paid(input.micros, input.at) && Acceptable(row, input)
    case Changed => row.paid == Some(Paid(input.micros, input.at)) && Acceptable(row, input)
    case Unchanged => row.paid.Some? && row.paid.value.micros == input.micros && row.currency == input.currency
    case Refused(code) =>
      (match code
       case NotFound => false
       case Mismatch => row.currency != input.currency
       case AlreadySettled => row.paid.Some? && row.paid.value.micros != input.micros
       case NotFinal => !Acceptable(row, input))
    case LostTheRace => false
  }

  ghost predicate Inv(s: State, inputs: seq<Input>) {
    && |s.pcs| == |inputs|
    && (forall i | 0 <= i < |inputs| :: PcOk(s.row, s.pcs[i], inputs[i]))
    && (forall i, j | 0 <= i < j < |inputs| :: !(s.pcs[i].Changed? && s.pcs[j].Changed?))
    && (s.row.paid.Some? <==> exists i :: 0 <= i < |inputs| && s.pcs[i].Changed?)
  }

  /** A settled row stays settled, as it is. */
  lemma StepKeepsTheSettlement(s: State, inputs: seq<Input>, i: nat, t: State)
    requires Step(s, inputs, i, t)
    ensures s.row.paid.Some? ==> t.row == s.row
    ensures t.row == s.row.(paid := t.row.paid)
  {
  }

  lemma StepKeepsInv(s: State, inputs: seq<Input>, i: nat, t: State)
    requires Inv(s, inputs) && Step(s, inputs, i, t)
    ensures Inv(t, inputs)
  {
    assert PcOk(s.row, s.pcs[i], inputs[i]);
    forall j | 0 <= j < |inputs| ensures PcOk(t.row, t.pcs[j], inputs[j]) {
      assert PcOk(s.row, s.pcs[j], inputs[j]);
    }
    if t.row.paid.Some? {
      if s.row.paid.None? {
        assert t.pcs[i].Changed?;
      } else {
        var k :| 0 <= k < |inputs| && s.pcs[k].Changed?;
        assert t.pcs[k].Changed?;
      }
    }
    if k :| 0 <= k < |inputs| && t.pcs[k].Changed? {
      if k != i { assert s.pcs[k].Changed?; }
    }
  }

  /** Along every interleaving each settler's place agrees with the row, and a row once settled stays as it was settled. */
  lemma {:induction false} RunKeepsInv(states: seq<State>, who: seq<nat>, inputs: seq<Input>)
    requires Run(states, who, inputs)
    ensures Inv(states[|who|], inputs)
    ensures forall k | 0 <= k <= |who| && states[k].row.paid.Some? :: states[|who|].row == states[k].row
    decreases |who|
  {
    if who != [] {
      var n := |who| - 1;
      RunKeepsInv(states[..n + 1], who[..n], inputs);
      StepKeepsInv(states[n], inputs, who[n], states[n + 1]);
      StepKeepsTheSettlement(states[n], inputs, who[n], states[n + 1]);
      forall k | 0 <= k <= |who| && states[k].row.paid.Some? ensures states[|who|].row == states[k].row {
        if k <= n { assert states[..n + 1][k] == states[k]; }
      }
    }
  }

  /** No interleaving ever reaches the "kept losing a race" throw. */
  lemma NobodyLosesTheRaceTwice(states: seq<State>, who: seq<nat>, inputs: seq<Input>, i: nat)
    requires Run(states, who, inputs) && i < |inputs|
    ensures i < |states[|who|].pcs| && states[|who|].pcs[i] != LostTheRace
  {
    RunKeepsInv(states, who, inputs);
  }

  predicate Done(pc: Pc) {
    !pc.Reading? && !pc.Writing?
  }

  /**
   * When every settler has answered and one of them was acceptable: exactly one wrote; the others with its amount
   * changed nothing, and those with another were refused.
   */
  lemma ExactlyOneSettles(states: seq<State>, who: seq<nat>, inputs: seq<Input>, valid: nat) returns (winner: nat)
    requires Run(states, who, inputs) && valid < |inputs| && Acceptable(states[|who|].row, inputs[valid])
    requires forall i | 0 <= i < |states[|who|].pcs| :: Done(states[|who|].pcs[i])
    ensures var last := states[|who|];
      && |last.pcs| == |inputs| && winner < |inputs|
      && last.row.paid == Some(Paid(inputs[winner].micros, inputs[winner].at))
      && (forall i | 0 <= i < |inputs| :: last.pcs[i] == Changed <==> i == winner)
      && (forall i | 0 <= i < |inputs| && i != winner && Acceptable(last.row, inputs[i]) ::
            last.pcs[i] == if inputs[i].micros == inputs[winner].micros then Unchanged else Refused(AlreadySettled))
  {
    RunKeepsInv(states, who, inputs);
    var last := states[|who|];
    assert PcOk(last.row, last.pcs[valid], inputs[valid]);
    assert last.row.paid.Some?;
    winner :| 0 <= winner < |inputs| && last.pcs[winner].Changed?;
    assert PcOk(last.row, last.pcs[winner], inputs[winner]);
    forall i | 0 <= i < |inputs| && i != winner ensures last.pcs[i] != Changed
      && (Acceptable(last.row, inputs[i]) ==>
            last.pcs[i] == if inputs[i].micros == inputs[winner].micros then Unchanged else Refused(AlreadySettled))
    {
      assert PcOk(last.row, last.pcs[i], inputs[i]);
      if i < winner { assert !last.pcs[i].Changed?; } else { assert !last.pcs[i].Changed?; }
    }
  }

  // ------------------------------------------------------------------------------------------
  // The ledger
  // ------------------------------------------------------------------------------------------

  /** One call, as its caller describes it. */
  datatype Ref = Ref(provider: string, refId: string)

  datatype Planned = Planned(what: string, row: Row)

  class CallLedger {
    /** Recorded calls, each with the module and kind it was recorded for. */
    var calls: map<Ref, Planned>

    constructor ()
      ensures calls == map[]
    {
      calls := map[];
    }

    /** Inserts once; a replay must describe the same call, and never changes it. */
    method WriteCall(ref: Ref, planned: Planned) returns (r: Result<bool, Code>)
      modifies this
      ensures calls == if ref in old(calls) then old(calls) else old(calls)[ref := planned]
      ensures r == if ref !in old(calls) then Ok(true)
                   else if old(calls)[ref].what == planned.what && old(calls)[ref].row.currency == planned.row.currency then Ok(false)
                   else Err(Mismatch)
    {
      if ref !in calls {
        calls := calls[ref := planned];
        return Ok(true);
      }
      if calls[ref].what != planned.what || calls[ref].row.currency != planned.row.currency { return Err(Mismatch); }
      r := Ok(false);
    }

    /** Another settler's write, which like every write applies only to an unsettled row. */
    method OtherSettles(ref: Ref, other: Option<Paid>)
      modifies this
      ensures calls == if other.Some? && ref in old(calls) && old(calls)[ref].row.paid.None?
                       then old(calls)[ref := Settled(old(calls)[ref], other.value)] else old(calls)
    {
      if other.Some? && ref in calls && calls[ref].row.paid.None? {
        calls := calls[ref := Settled(calls[ref], other.value)];
      }
    }

    /**
     * The two-pass loop. `others` is what other settlers write between this one's read and its write in each pass.
     * The throw after the loop is unreachable.
     */
    method Settle(ref: Ref, input: Input, others: nat -> Option<Paid>) returns (r: Result<bool, Code>)
      modifies this
      ensures ref !in old(calls) ==> r == Err(NotFound) && calls == old(calls)
      ensures r.Ok? ==> ref in calls && calls[ref].row.paid.Some? && calls[ref].row.paid.value.micros == input.micros
      ensures r == Ok(true) ==> old(calls)[ref].row.paid.None? && Acceptable(old(calls)[ref].row, input)
      ensures r == Ok(true) ==> calls[ref].row.paid == Some(Paid(input.micros, input.at))
      ensures r == Err(Mismatch) <==> ref in old(calls) && old(calls)[ref].row.currency != input.currency
      ensures r == Err(NotFinal) ==> !Acceptable(old(calls)[ref].row, input)
      ensures calls.Keys == old(calls).Keys && forall other | other in calls && other != ref :: calls[other] == old(calls)[other]
      ensures r == Err(AlreadySettled) ==>
        ref in calls && calls[ref].row.paid.Some? && calls[ref].row.paid.value.micros != input.micros
      ensures ref in old(calls) && old(calls)[ref].row.paid.Some? ==> calls == old(calls)
      ensures ref in old(calls) && old(calls)[ref].row.paid.None? && Acceptable(old(calls)[ref].row, input) ==>
        ref in calls && calls[ref].row.paid
          == (if others(0).Some? then others(0) else Some(Paid(input.micros, input.at)))
        && (r == Ok(true) <==> others(0).None?)
      ensures ref in old(calls) && Acceptable(old(calls)[ref].row, input) ==>
        ref in calls && calls[ref].row.paid.Some? && (r.Err? ==> r == Err(AlreadySettled))
    {
      var pass := 0;
      while pass < 2
        invariant pass <= 2 && calls.Keys == old(calls).Keys
        invariant forall other | other in calls && other != ref :: calls[other] == old(calls)[other]
        invariant pass == 0 ==> calls == old(calls)
        invariant pass > 0 ==>
          ref in calls && others(0).Some? && calls[ref].row.paid == others(0) && old(calls)[ref].row.paid.None?
        invariant ref in calls ==> calls[ref] == old(calls)[ref].(row := old(calls)[ref].row.(paid := calls[ref].row.paid))
        invariant pass < 2
      {
        if ref !in calls { return Err(NotFound); }
        match PlanSettlement(calls[ref].row, input)
        case Refuse(code) => return Err(code);
        case Replay => return Ok(false);
        case Write(paid) =>
          OtherSettles(ref, others(pass));
          if calls[ref].row.paid.None? {
            calls := calls[ref := Settled(calls[ref], paid)];
            return Ok(true);
          }
          pass := pass + 1;
      }
      assert false;
    }
  }

  function Settled(p: Planned, paid: Paid): Planned {
    p.(row := p.row.(paid := Some(paid)))
  }
}
