/**
 * Aggregating seller reply reports (services/seller-reply-reports): assessing each report, weighing it per family,
 * refreshing the evidence rows whose inputs changed, and writing the assessment back to the rows it was read from.
 */
module Aggregate {
  import opened Common

  datatype Reason =
    | CollectionElsewhere | PostageOnly | PaymentFirst | LinkOrDelivery | NotAsDescribed | OtherReason | AsListed

  datatype Family = Location | Handover | Payment | Link | Item

  function FamilyOf(reason: Reason): Option<Family> {
    match reason
    case CollectionElsewhere => Some(Location)
    case PostageOnly => Some(Handover)
    case PaymentFirst => Some(Payment)
    case LinkOrDelivery => Some(Link)
    case NotAsDescribed => Some(Item)
    case OtherReason => None
    case AsListed => None
  }

  const FAMILIES: seq<Family> := [Location, Handover, Payment, Link, Item]

  datatype Scope = Own | Copy

  datatype Counts = AnyPath | PathBOnly | Never

  datatype Eligibility = Pending | Eligible | Tester | NotActive | EmailUnverified | TooNew | RateLimited | BurstHold

  datatype Outcome = Upheld | NotUpheld | Void | Unknown

  datatype By = Review | Corroboration | Correction | ReportThenBuy | Ban

  datatype Status = Withdrawn | RemovedAfterCheck | Saved | HelpingWarn | NotShown

  datatype Hold = GemBurst | Burst | CounterReport

  datatype Level = LevelNone | Single | Multiple

  /** A stored reason; `counts` and `band` are written back by the aggregator, and null until then. */
  datatype ReasonRow = ReasonRow(reason: Reason, place: Option<string>, counts: Option<Counts>, band: Option<int>)

  /** A stored report. Weights are in hundredths. The fields from `eligibility` on are written back. */
  datatype Report = Report(id: string, listing: string, reporter: string, withdrawn: bool, reasons: seq<ReasonRow>,
    eligibility: Eligibility, weight: nat, weightAtSubmit: Option<nat>, status: Status, outcome: Option<Outcome>,
    outcomeBy: Option<By>)

  datatype Facts = Facts(tester: bool, active: bool, verified: bool, aged: bool, rateLimited: bool)

  datatype Cluster = Cluster(key: string, members: set<string>, memberSetHash: string)

  datatype Contribution = Contribution(report: string, person: string, weight: nat, counts: Counts,
    place: Option<string>, band: Option<int>)

  /**
   * Everything one call reads beside the reports themselves, and the scoring rules. `countsOf` and `bandOf` check a
   * report's n-th reason against the listing the evidence is for.
   */
  datatype World = World(targets: seq<string>, cluster: string -> Option<Cluster>, original: string -> bool,
    facts: string -> Facts, baseWeight: string -> nat, boughtInWindow: string -> bool,
    listingBurst: string -> Option<Hold>, clusterBurst: string -> Option<Hold>,
    countsOf: (string, nat, string) -> Counts, bandOf: (string, nat, string) -> Option<int>,
    person: string -> string, counter: seq<Contribution> -> nat, level: seq<Contribution> -> Level)

  // ------------------------------------------------------------------------------------------
  // One report
  // ------------------------------------------------------------------------------------------

  function EligibilityOf(f: Facts, inBurst: bool): (e: Eligibility)
    ensures !e.Pending?
  {
    if f.tester then Tester
    else if !f.active then NotActive
    else if !f.verified then EmailUnverified
    else if !f.aged then TooNew
    else if f.rateLimited then RateLimited
    else if inBurst then BurstHold
    else Eligible
  }

  datatype Assessment = Assessment(eligibility: Eligibility, weight: nat, rtb: bool, outcome: Option<Outcome>)

  function Assess(w: World, r: Report): Assessment {
    var eligibility := EligibilityOf(w.facts(r.id), w.listingBurst(r.listing).Some?);
    var rtb := w.boughtInWindow(r.id);
    Assessment(
      eligibility,
      if eligibility.Eligible? then w.baseWeight(r.id) else 0,
      rtb && r.outcomeBy != Some(Ban),
      if r.outcome.Some? then r.outcome else if rtb then Some(Unknown) else None)
  }

  function FamilyWeight(w: World, r: Report, family: Family): nat {
    var a := Assess(w, r);
    if r.withdrawn then 0
    else if a.outcome == Some(Void) || a.outcome == Some(NotUpheld) then 0
    else if (r.outcomeBy == Some(ReportThenBuy) || a.rtb) && !family.Item? then 0
    else a.weight
  }

  function StatusOf(withdrawn: bool, outcome: Option<Outcome>, eligibility: Eligibility, helping: bool): Status {
    if withdrawn then Withdrawn
    else if outcome == Some(NotUpheld) || outcome == Some(Void) then RemovedAfterCheck
    else if eligibility.Pending? then Saved
    else if helping then HelpingWarn
    else NotShown
  }

  function CheckedReasons(w: World, r: Report): seq<ReasonRow> {
    seq(|r.reasons|, (k: nat) requires k < |r.reasons| =>
      r.reasons[k].(
        counts := Some(w.countsOf(r.id, k, r.listing)),
        band := if r.reasons[k].reason.CollectionElsewhere? && r.reasons[k].place.Some? then w.bandOf(r.id, k, r.listing)
                else None))
  }

  /** The row as the call leaves it. */
  function WrittenBack(w: World, r: Report, helping: bool): Report {
    var a := Assess(w, r);
    r.(
      reasons := CheckedReasons(w, r),
      eligibility := a.eligibility,
      weight := a.weight,
      weightAtSubmit := if r.weightAtSubmit.Some? then r.weightAtSubmit
                        else if r.eligibility.Pending? then Some(a.weight) else None,
      status := StatusOf(r.withdrawn, a.outcome, a.eligibility, helping),
      outcome := a.outcome,
      outcomeBy := if r.outcomeBy.Some? then r.outcomeBy
                   else if a.outcome == Some(Unknown) && a.rtb then Some(ReportThenBuy) else None)
  }

  // ------------------------------------------------------------------------------------------
  // Evidence
  // ------------------------------------------------------------------------------------------

  datatype EvidenceKey = EvidenceKey(target: string, scope: Scope, family: Family)

  /** What the inputs hash covers, in any order of contributions; the hash is taken to be injective. */
  datatype Inputs = Inputs(key: EvidenceKey, contributions: multiset<Contribution>, counter: nat,
    memberSetHash: Option<string>, hold: Option<Hold>)

  predicate HasCopyScope(w: World, target: string) {
    w.cluster(target).Some? && !w.original(target)
  }

  predicate FromScope(w: World, r: Report, target: string, scope: Scope) {
    match scope
    case Own => r.listing == target
    case Copy => r.listing != target && w.cluster(target).Some? && r.listing in w.cluster(target).value.members
  }

  /** The contributions of a report's first `n` reasons to a family. */
  function OfReport(w: World, r: Report, target: string, family: Family, n: nat): seq<Contribution>
    requires n <= |r.reasons|
  {
    if n == 0 then [] else
      var before, reason := OfReport(w, r, target, family, n - 1), r.reasons[n - 1];
      if FamilyOf(reason.reason) != Some(family) then before
      else before + [Contribution(r.id, w.person(r.reporter), FamilyWeight(w, r, family), w.countsOf(r.id, n - 1, target),
        if family.Location? then reason.place else None,
        if family.Location? then w.bandOf(r.id, n - 1, target) else None)]
  }

  function Contributions(w: World, reports: seq<Report>, key: EvidenceKey): seq<Contribution> {
    if reports == [] then [] else
      var before, r := Contributions(w, reports[..|reports| - 1], key), reports[|reports| - 1];
      if FromScope(w, r, key.target, key.scope) then before + OfReport(w, r, key.target, key.family, |r.reasons|) else before
  }

  predicate SaysAsListed(r: Report) {
    exists x | x in r.reasons :: x.reason.AsListed?
  }

  function Counters(w: World, reports: seq<Report>, target: string, scope: Scope): seq<Contribution> {
    if reports == [] then [] else
      var before, r := Counters(w, reports[..|reports| - 1], target, scope), reports[|reports| - 1];
      if FromScope(w, r, target, scope) && SaysAsListed(r) then
        before + [Contribution(r.id, w.person(r.reporter), if r.withdrawn then 0 else Assess(w, r).weight, Never, None, None)]
      else before
  }

  function BurstOn(w: World, target: string, scope: Scope): Option<Hold> {
    match scope
    case Own => w.listingBurst(target)
    case Copy => if w.cluster(target).Some? then w.clusterBurst(w.cluster(target).value.key) else None
  }

  function HoldOf(burst: Option<Hold>, counter: nat, level: Level): Option<Hold> {
    if burst.Some? then burst else if counter > 0 && !level.LevelNone? then Some(CounterReport) else None
  }

  function CounterOn(w: World, reports: seq<Report>, key: EvidenceKey): nat {
    w.counter(Counters(w, reports, key.target, key.scope))
  }

  function HoldOn(w: World, reports: seq<Report>, key: EvidenceKey): Option<Hold> {
    HoldOf(BurstOn(w, key.target, key.scope), CounterOn(w, reports, key), w.level(Contributions(w, reports, key)))
  }

  function InputsOf(w: World, reports: seq<Report>, key: EvidenceKey): Inputs {
    Inputs(key, multiset(Contributions(w, reports, key)), CounterOn(w, reports, key),
      if key.scope.Copy? && w.cluster(key.target).Some? then Some(w.cluster(key.target).value.memberSetHash) else None,
      HoldOn(w, reports, key))
  }

  type Evidence = map<EvidenceKey, Inputs>

  /** The stored row is out of date: other inputs, or contributions with no row yet. */
  predicate Stale(w: World, reports: seq<Report>, evidence: Evidence, key: EvidenceKey) {
    if key in evidence then evidence[key] != InputsOf(w, reports, key) else Contributions(w, reports, key) != []
  }

  function Refreshed(w: World, reports: seq<Report>, evidence: Evidence, keys: seq<EvidenceKey>): Evidence {
    if keys == [] then evidence else
      var before, key := Refreshed(w, reports, evidence, keys[..|keys| - 1]), keys[|keys| - 1];
      if Stale(w, reports, before, key) then before[key := InputsOf(w, reports, key)] else before
  }

  function ChangedTargets(w: World, reports: seq<Report>, evidence: Evidence, keys: seq<EvidenceKey>): set<string> {
    if keys == [] then {} else
      var init, key := keys[..|keys| - 1], keys[|keys| - 1];
      ChangedTargets(w, reports, evidence, init)
      + if Stale(w, reports, Refreshed(w, reports, evidence, init), key) then {key.target} else {}
  }

  function KeysOn(target: string, scope: Scope): seq<EvidenceKey> {
    seq(|FAMILIES|, (k: nat) requires k < |FAMILIES| => EvidenceKey(target, scope, FAMILIES[k]))
  }

  /** Every target, scope and family, in the order of the nested loops. */
  function AllKeys(w: World, targets: seq<string>): seq<EvidenceKey> {
    if targets == [] then [] else
      var init, last := AllKeys(w, targets[..|targets| - 1]), targets[|targets| - 1];
      init + KeysOn(last, Own) + if HasCopyScope(w, last) then KeysOn(last, Copy) else []
  }

  /** A report helps when an unheld own-listing family reaches a level with a contribution of its that counts. */
  predicate HelpsOn(w: World, reports: seq<Report>, id: string, key: EvidenceKey) {
    && key.scope.Own? && !w.level(Contributions(w, reports, key)).LevelNone? && HoldOn(w, reports, key).None?
    && exists c | c in Contributions(w, reports, key) :: c.report == id && c.counts.AnyPath? && c.weight > 0
  }

  predicate Helping(w: World, reports: seq<Report>, id: string) {
    exists key | key in AllKeys(w, w.targets) :: HelpsOn(w, reports, id, key)
  }

  datatype State = State(reports: seq<Report>, evidence: Evidence)

  function Aggregated(w: World, s: State): State {
    State(
      seq(|s.reports|, (k: nat) requires k < |s.reports| =>
        WrittenBack(w, s.reports[k], Helping(w, s.reports, s.reports[k].id))),
      Refreshed(w, s.reports, s.evidence, AllKeys(w, w.targets)))
  }

  function Announced(w: World, s: State): set<string> {
    ChangedTargets(w, s.reports, s.evidence, AllKeys(w, w.targets))
  }

  // ------------------------------------------------------------------------------------------
  // What writing back keeps
  // ------------------------------------------------------------------------------------------

  /** The fields a second call computes from are unmoved by the first call's writes. */
  lemma WriteBackKeepsTheAssessment(w: World, r: Report, helping: bool, family: Family)
    ensures var r' := WrittenBack(w, r, helping);
      && Assess(w, r') == Assess(w, r) && FamilyWeight(w, r', family) == FamilyWeight(w, r, family)
  {
  }

  lemma WriteBackTwice(w: World, r: Report, helping: bool)
    ensures WrittenBack(w, WrittenBack(w, r, helping), helping) == WrittenBack(w, r, helping)
  {
    var r' := WrittenBack(w, r, helping);
    WriteBackKeepsTheAssessment(w, r, helping, Item);
    assert CheckedReasons(w, r') == CheckedReasons(w, r);
  }

  /** Reports that differ only in written-back fields, and are assessed alike. */
  ghost predicate Alike(w: World, r: Report, r': Report) {
    && r'.id == r.id && r'.listing == r.listing && r'.reporter == r.reporter && r'.withdrawn == r.withdrawn
    && |r'.reasons| == |r.reasons|
    && (forall k | 0 <= k < |r.reasons| :: r'.reasons[k].reason == r.reasons[k].reason && r'.reasons[k].place == r.reasons[k].place)
    && Assess(w, r') == Assess(w, r)
    && (forall family :: FamilyWeight(w, r', family) == FamilyWeight(w, r, family))
  }

  ghost predicate AllAlike(w: World, reports: seq<Report>, reports': seq<Report>) {
    |reports| == |reports'| && forall k | 0 <= k < |reports| :: Alike(w, reports[k], reports'[k])
  }

  lemma {:induction false} AlikeOfReport(w: World, r: Report, r': Report, target: string, family: Family, n: nat)
    requires Alike(w, r, r') && n <= |r.reasons|
    ensures OfReport(w, r', target, family, n) == OfReport(w, r, target, family, n)
  {
    if n > 0 { AlikeOfReport(w, r, r', target, family, n - 1); }
  }

  lemma {:induction false} AlikeContributions(w: World, reports: seq<Report>, reports': seq<Report>, key: EvidenceKey)
    requires AllAlike(w, reports, reports')
    ensures Contributions(w, reports', key) == Contributions(w, reports, key)
  {
    if reports != [] {
      var r, r' := reports[|reports| - 1], reports'[|reports| - 1];
      AlikeContributions(w, reports[..|reports| - 1], reports'[..|reports| - 1], key);
      AlikeOfReport(w, r, r', key.target, key.family, |r.reasons|);
    }
  }

  lemma AlikeSaysAsListed(w: World, r: Report, r': Report)
    requires Alike(w, r, r')
    ensures SaysAsListed(r') == SaysAsListed(r)
  {
    if x :| x in r.reasons && x.reason.AsListed? {
      var k :| 0 <= k < |r.reasons| && r.reasons[k] == x;
      assert r'.reasons[k] in r'.reasons;
    }
    if x :| x in r'.reasons && x.reason.AsListed? {
      var k :| 0 <= k < |r'.reasons| && r'.reasons[k] == x;
      assert r.reasons[k] in r.reasons;
    }
  }

  lemma {:induction false} AlikeCounters(w: World, reports: seq<Report>, reports': seq<Report>, target: string, scope: Scope)
    requires AllAlike(w, reports, reports')
    ensures Counters(w, reports', target, scope) == Counters(w, reports, target, scope)
  {
    if reports != [] {
      AlikeCounters(w, reports[..|reports| - 1], reports'[..|reports| - 1], target, scope);
      AlikeSaysAsListed(w, reports[|reports| - 1], reports'[|reports| - 1]);
    }
  }

  lemma AlikeInputs(w: World, reports: seq<Report>, reports': seq<Report>, key: EvidenceKey)
    requires AllAlike(w, reports, reports')
    ensures InputsOf(w, reports', key) == InputsOf(w, reports, key)
    ensures forall id :: HelpsOn(w, reports', id, key) == HelpsOn(w, reports, id, key)
  {
    AlikeContributions(w, reports, reports', key);
    AlikeCounters(w, reports, reports', key.target, key.scope);
  }

  lemma AggregateLeavesAlike(w: World, s: State)
    ensures AllAlike(w, s.reports, Aggregated(w, s).reports)
  {
    forall k | 0 <= k < |s.reports| ensures Alike(w, s.reports[k], Aggregated(w, s).reports[k]) {
      forall family
        ensures FamilyWeight(w, Aggregated(w, s).reports[k], family) == FamilyWeight(w, s.reports[k], family)
      {
        WriteBackKeepsTheAssessment(w, s.reports[k], Helping(w, s.reports, s.reports[k].id), family);
      }
    }
  }

  /** The row at `key` is up to date. */
  ghost predicate Fresh(w: World, reports: seq<Report>, evidence: Evidence, key: EvidenceKey) {
    !Stale(w, reports, evidence, key)
  }

  lemma {:induction false} RefreshedAreFresh(w: World, reports: seq<Report>, evidence: Evidence, keys: seq<EvidenceKey>)
    ensures forall key | key in keys :: Fresh(w, reports, Refreshed(w, reports, evidence, keys), key)
  {
    if keys != [] {
      RefreshedAreFresh(w, reports, evidence, keys[..|keys| - 1]);
      var before, last := Refreshed(w, reports, evidence, keys[..|keys| - 1]), keys[|keys| - 1];
      forall key | key in keys ensures Fresh(w, reports, Refreshed(w, reports, evidence, keys), key) {
        if key != last { assert key in keys[..|keys| - 1] && Fresh(w, reports, before, key); }
      }
    }
  }

  lemma {:induction false} FreshStays(w: World, reports: seq<Report>, evidence: Evidence, keys: seq<EvidenceKey>)
    requires forall key | key in keys :: Fresh(w, reports, evidence, key)
    ensures Refreshed(w, reports, evidence, keys) == evidence && ChangedTargets(w, reports, evidence, keys) == {}
  {
    if keys != [] {
      FreshStays(w, reports, evidence, keys[..|keys| - 1]);
      assert Fresh(w, reports, evidence, keys[|keys| - 1]);
    }
  }

  lemma HelpingStays(w: World, s: State, id: string)
    ensures Helping(w, Aggregated(w, s).reports, id) == Helping(w, s.reports, id)
  {
    AggregateLeavesAlike(w, s);
    forall key ensures HelpsOn(w, Aggregated(w, s).reports, id, key) == HelpsOn(w, s.reports, id, key) {
      AlikeInputs(w, s.reports, Aggregated(w, s).reports, key);
    }
  }

  /**
   * One call is a fixed point: run again on what it wrote, with the same inputs, it writes nothing and announces
   * nothing.
   */
  lemma AggregateIsAFixedPoint(w: World, s: State)
    ensures Aggregated(w, Aggregated(w, s)) == Aggregated(w, s)
    ensures Announced(w, Aggregated(w, s)) == {}
  {
    var t := Aggregated(w, s);
    var keys := AllKeys(w, w.targets);
    AggregateLeavesAlike(w, s);
    RefreshedAreFresh(w, s.reports, s.evidence, keys);
    forall key | key in keys ensures Fresh(w, t.reports, t.evidence, key) {
      assert Fresh(w, s.reports, t.evidence, key);
      AlikeInputs(w, s.reports, t.reports, key);
      AlikeContributions(w, s.reports, t.reports, key);
    }
    FreshStays(w, t.reports, t.evidence, keys);
    forall k | 0 <= k < |t.reports| ensures Aggregated(w, t).reports[k] == t.reports[k] {
      HelpingStays(w, s, s.reports[k].id);
      WriteBackTwice(w, s.reports[k], Helping(w, s.reports, s.reports[k].id));
    }
    assert Aggregated(w, t).reports == t.reports;
  }

  // ------------------------------------------------------------------------------------------
  // A report's whole life
  // ------------------------------------------------------------------------------------------

  /** Everything that writes a report's row: an aggregation's write-back, an overruling, and its reporter. */
  datatype Touch =
    | Aggregation(w: World, helping: bool)
    | Overrule(outcome: Outcome, who: By)
    | Edit(reasons: seq<(Reason, Option<string>)>)
    | Withdraw

  /** `setOutcomes` on the row: whoever resolves it replaces what stood there. */
  function Overruled(r: Report, outcome: Outcome, who: By): Report {
    r.(outcome := Some(outcome), outcomeBy := Some(who))
  }

  function AsSubmitted(reasons: seq<(Reason, Option<string>)>): seq<ReasonRow> {
    seq(|reasons|, (k: nat) requires k < |reasons| => ReasonRow(reasons[k].0, reasons[k].1, None, None))
  }

  function Touched(r: Report, t: Touch): Report {
    match t
    case Aggregation(w, helping) => WrittenBack(w, r, helping)
    case Overrule(outcome, who) => Overruled(r, outcome, who)
    case Edit(reasons) => if r.withdrawn then r else r.(reasons := AsSubmitted(reasons))
    case Withdraw => if r.withdrawn then r else r.(status := Withdrawn, withdrawn := true)
  }

  /** What its reporter can do: change the reasons, to be checked anew, or withdraw it, once and for all. */
  lemma ReporterTouches(r: Report, reasons: seq<(Reason, Option<string>)>)
    ensures r.withdrawn ==> Touched(r, Edit(reasons)) == r && Touched(r, Withdraw) == r
    ensures !r.withdrawn ==>
      && Touched(r, Withdraw) == r.(withdrawn := true, status := Status.Withdrawn)
      && var edited := Touched(r, Edit(reasons));
         && edited == r.(reasons := edited.reasons) && |edited.reasons| == |reasons|
         && forall k | 0 <= k < |reasons| :: edited.reasons[k] == ReasonRow(reasons[k].0, reasons[k].1, None, None)
  {
  }

  /** The report after any touches, in order, each aggregation with its own inputs. */
  function Later(touches: seq<Touch>, r: Report): Report {
    if touches == [] then r else Touched(Later(touches[..|touches| - 1], r), touches[|touches| - 1])
  }

  lemma {:induction false} IdentityStays(touches: seq<Touch>, r: Report)
    ensures Later(touches, r).id == r.id && Later(touches, r).listing == r.listing
  {
    if touches != [] { IdentityStays(touches[..|touches| - 1], r); }
  }

  /** The weight at submission, once set, never changes, whoever writes the row. */
  lemma {:induction false} WeightAtSubmitIsSetOnce(touches: seq<Touch>, r: Report)
    requires r.weightAtSubmit.Some?
    ensures Later(touches, r).weightAtSubmit == r.weightAtSubmit
  {
    if touches != [] { WeightAtSubmitIsSetOnce(touches[..|touches| - 1], r); }
  }

  function FirstAggregation(touches: seq<Touch>): Option<World> {
    if touches == [] then None
    else
      var before, last := FirstAggregation(touches[..|touches| - 1]), touches[|touches| - 1];
      if before.None? && last.Aggregation? then Some(last.w) else before
  }

  /** It is set by the first aggregation over a pending report, whatever else was written before, or never. */
  lemma {:induction false} WeightAtSubmitIsTheFirst(touches: seq<Touch>, r: Report)
    requires r.weightAtSubmit.None?
    ensures var first := FirstAggregation(touches);
      && Later(touches, r).weightAtSubmit
         == (if first.Some? && r.eligibility.Pending? then Some(Assess(first.value, r).weight) else None)
      && (if first.Some? then !Later(touches, r).eligibility.Pending? else Later(touches, r).eligibility == r.eligibility)
  {
    if touches != [] {
      WeightAtSubmitIsTheFirst(touches[..|touches| - 1], r);
      IdentityStays(touches[..|touches| - 1], r);
    }
  }

  /** A report bought after, with no outcome from anyone else, is marked by that call. */
  lemma BoughtReportIsMarked(w: World, r: Report, helping: bool)
    requires w.boughtInWindow(r.id) && r.outcomeBy.None?
    ensures WrittenBack(w, r, helping).outcomeBy == Some(ReportThenBuy) <==> r.outcome.None? || r.outcome == Some(Unknown)
  {
  }

  /** The last overruling, if there was one. */
  function LastOverruling(touches: seq<Touch>): Option<(Outcome, By)> {
    if touches == [] then None
    else
      var last := touches[|touches| - 1];
      if last.Overrule? then Some((last.outcome, last.who)) else LastOverruling(touches[..|touches| - 1])
  }

  /** A marked report stays marked until it is overruled; then it says what it was last overruled to. */
  lemma {:induction false} MarkStaysUntilOverruled(touches: seq<Touch>, r: Report)
    requires r.outcomeBy == Some(ReportThenBuy)
    ensures var now := Later(touches, r);
      match LastOverruling(touches)
      case None => now.outcomeBy == Some(ReportThenBuy)
      case Some((outcome, who)) => now.outcome == Some(outcome) && now.outcomeBy == Some(who)
  {
    if touches != [] { MarkStaysUntilOverruled(touches[..|touches| - 1], r); }
  }

  /** A report counts at all: eligible, not withdrawn, by a reporter of some weight. */
  predicate CountsAtAll(w: World, r: Report) {
    !r.withdrawn && Assess(w, r).eligibility.Eligible? && w.baseWeight(r.id) > 0
  }

  /** When a report that counts weighs nothing outside the item family: by its row, and by what is read of the purchase. */
  lemma WeighsNothingExactly(w: World, r: Report, family: Family)
    requires !family.Item?
    ensures FamilyWeight(w, r, family) == 0 <==>
      || !CountsAtAll(w, r)
      || r.outcomeBy == Some(ReportThenBuy)
      || r.outcome == Some(Void) || r.outcome == Some(NotUpheld)
      || (w.boughtInWindow(r.id) && r.outcomeBy != Some(Ban))
  {
  }

  /**
   * A marked report, in any later run, weighs nothing outside the item family unless it was overruled to an outcome that
   * counts, by someone other than the mark itself, and the purchase no longer reads, or was overruled by a ban.
   */
  lemma MarkedWeighsNothingExactly(touches: seq<Touch>, w: World, r: Report, family: Family)
    requires r.outcomeBy == Some(ReportThenBuy) && !family.Item? && CountsAtAll(w, Later(touches, r))
    ensures FamilyWeight(w, Later(touches, r), family) == 0 <==>
      match LastOverruling(touches)
      case None => true
      case Some((outcome, who)) =>
        who.ReportThenBuy? || outcome.Void? || outcome.NotUpheld? || (w.boughtInWindow(r.id) && !who.Ban?)
  {
    MarkStaysUntilOverruled(touches, r);
    IdentityStays(touches, r);
    WeighsNothingExactly(w, Later(touches, r), family);
  }

  /**
   * Such a run: a report is marked, a reviewer upholds it, and its reporter takes the purchase back. It weighed nothing
   * in the payment family and now counts there in full.
   */
  lemma UpheldCountsAgain(bought: World, corrected: World, r: Report)
    requires bought.boughtInWindow(r.id) && !corrected.boughtInWindow(r.id)
    requires r.outcome.None? && r.outcomeBy.None? && CountsAtAll(corrected, r)
    ensures var marked := WrittenBack(bought, r, false);
      var later := Later([Overrule(Upheld, Review), Aggregation(corrected, false)], marked);
      && marked.outcomeBy == Some(ReportThenBuy) && FamilyWeight(bought, marked, Payment) == 0
      && FamilyWeight(corrected, later, Payment) == corrected.baseWeight(r.id) > 0
  {
    var marked := WrittenBack(bought, r, false);
    var upheld := [Overrule(Upheld, Review)];
    var run := [Overrule(Upheld, Review), Aggregation(corrected, false)];
    assert upheld[..0] == [] && Later(upheld, marked) == Overruled(marked, Upheld, Review);
    assert run[..1] == upheld;
  }

  lemma {:induction false} NotUnwithdrawn(touches: seq<Touch>, r: Report)
    requires r.withdrawn
    ensures Later(touches, r).withdrawn
  {
    if touches != [] { NotUnwithdrawn(touches[..|touches| - 1], r); }
  }

  /** A withdrawn report never counts again, whoever writes its row. */
  lemma WithdrawnWeighsNothing(touches: seq<Touch>, w: World, r: Report, family: Family)
    requires r.withdrawn
    ensures FamilyWeight(w, Later(touches, r), family) == 0
  {
    NotUnwithdrawn(touches, r);
  }

  // ------------------------------------------------------------------------------------------
  // The call itself
  // ------------------------------------------------------------------------------------------

  function HelpersIn(contributions: seq<Contribution>): set<string> {
    set c | c in contributions && c.counts.AnyPath? && c.weight > 0 :: c.report
  }

  function Among(ids: set<string>): Report -> bool {
    (r: Report) => r.id in ids
  }

  function ReportedBy(users: set<string>): Report -> bool {
    (r: Report) => r.reporter in users
  }

  function OverruledAll(reports: seq<Report>, which: Report -> bool, outcome: Outcome, who: By): seq<Report> {
    seq(|reports|, (k: nat) requires k < |reports| =>
      if which(reports[k]) then Overruled(reports[k], outcome, who) else reports[k])
  }

  /** It does not say so already. */
  predicate Resolvable(r: Report, outcome: Outcome, who: By) {
    r.outcome != Some(outcome) || r.outcomeBy != Some(who)
  }

  ghost predicate Unlike(r: Report, outcome: Outcome, who: By) {
    !(r.outcome == Some(outcome) && r.outcomeBy == Some(who))
  }

  /** Overruling rewrites the outcome of the chosen reports, by id or by reporter, and nothing else of any. */
  lemma OverruledAre(reports: seq<Report>, ids: set<string>, users: set<string>, outcome: Outcome, who: By, k: nat)
    requires k < |reports|
    ensures |OverruledAll(reports, Among(ids), outcome, who)| == |reports|
    ensures |OverruledAll(reports, ReportedBy(users), outcome, who)| == |reports|
    ensures var r := reports[k];
      && OverruledAll(reports, Among(ids), outcome, who)[k]
         == (if r.id in ids then r.(outcome := Some(outcome), outcomeBy := Some(who)) else r)
      && OverruledAll(reports, ReportedBy(users), outcome, who)[k]
         == (if r.reporter in users then r.(outcome := Some(outcome), outcomeBy := Some(who)) else r)
  {
  }

  /** The reports that change, by id. */
  function ResolvedIn(reports: seq<Report>, which: Report -> bool, outcome: Outcome, who: By): set<string> {
    if reports == [] then {} else
      var init, last := ResolvedIn(reports[..|reports| - 1], which, outcome, who), reports[|reports| - 1];
      if which(last) && Resolvable(last, outcome, who) then init + {last.id} else init
  }

  lemma ResolvedNext(reports: seq<Report>, k: nat, which: Report -> bool, outcome: Outcome, who: By)
    requires k < |reports|
    ensures ResolvedIn(reports[..k + 1], which, outcome, who) == ResolvedIn(reports[..k], which, outcome, who)
      + if which(reports[k]) && Resolvable(reports[k], outcome, who) then {reports[k].id} else {}
  {
    assert reports[..k + 1][..k] == reports[..k];
  }

  lemma {:induction false} ResolvedAre(reports: seq<Report>, which: Report -> bool, outcome: Outcome, who: By)
    ensures forall id :: id in ResolvedIn(reports, which, outcome, who)
              <==> exists r :: r in reports && r.id == id && which(r) && Resolvable(r, outcome, who)
  {
    if reports != [] {
      ResolvedAre(reports[..|reports| - 1], which, outcome, who);
      assert reports == reports[..|reports| - 1] + [reports[|reports| - 1]];
    }
  }

  /** Nothing to resolve: every report says so already, and overruling leaves it as it is. */
  lemma NothingResolved(reports: seq<Report>, which: Report -> bool, outcome: Outcome, who: By)
    requires ResolvedIn(reports, which, outcome, who) == {}
    ensures OverruledAll(reports, which, outcome, who) == reports
  {
    ResolvedAre(reports, which, outcome, who);
    forall k | 0 <= k < |reports| ensures OverruledAll(reports, which, outcome, who)[k] == reports[k] {
      assert reports[k] in reports && reports[k].id !in ResolvedIn(reports, which, outcome, who);
    }
  }

  class ReportTables {
    var reports: seq<Report>
    var evidence: Evidence

    function Contents(): State
      reads this
    {
      State(reports, evidence)
    }

    /** One evidence row: upserted only when its inputs changed. */
    method RefreshRow(w: World, key: EvidenceKey) returns (wrote: bool, helpers: set<string>)
      modifies this`evidence
      ensures wrote == Stale(w, reports, old(evidence), key)
      ensures evidence == if wrote then old(evidence)[key := InputsOf(w, reports, key)] else old(evidence)
      ensures forall id :: id in helpers <==> HelpsOn(w, reports, id, key)
    {
      var contributions := Contributions(w, reports, key);
      if contributions == [] && key !in evidence { return false, {}; }
      var inputs := InputsOf(w, reports, key);
      helpers := {};
      if key.scope.Own? && !w.level(contributions).LevelNone? && inputs.hold.None? {
        helpers := HelpersIn(contributions);
      }
      if key in evidence && evidence[key] == inputs { return false, helpers; }
      evidence := evidence[key := inputs];
      wrote := true;
    }

    /** The evidence loop: the listings whose evidence changed, and the reports that help somewhere. */
    method RefreshAll(w: World, keys: seq<EvidenceKey>) returns (changed: set<string>, helping: set<string>)
      modifies this`evidence
      ensures evidence == Refreshed(w, reports, old(evidence), keys)
      ensures changed == ChangedTargets(w, reports, old(evidence), keys)
      ensures forall id :: id in helping <==> exists key :: key in keys && HelpsOn(w, reports, id, key)
    {
      changed, helping := {}, {};
      for k := 0 to |keys|
        invariant evidence == Refreshed(w, reports, old(evidence), keys[..k])
        invariant changed == ChangedTargets(w, reports, old(evidence), keys[..k])
        invariant forall id :: id in helping <==> exists key :: key in keys[..k] && HelpsOn(w, reports, id, key)
      {
        assert keys[..k + 1][..k] == keys[..k] && keys[..k + 1] == keys[..k] + [keys[k]];
        var wrote, helpers := RefreshRow(w, keys[k]);
        helping := helping + helpers;
        if wrote { changed := changed + {keys[k].target}; }
      }
      assert keys[..|keys|] == keys;
    }

    /** Writes each report's assessment back, only where it changed. */
    method WriteBackAll(w: World, helping: set<string>) returns (wrote: bool)
      modifies this`reports
      ensures |reports| == |old(reports)|
      ensures forall k | 0 <= k < |reports| ::
                reports[k] == WrittenBack(w, old(reports)[k], old(reports)[k].id in helping)
      ensures wrote <==> reports != old(reports)
    {
      wrote := false;
      for k := 0 to |reports|
        invariant |reports| == |old(reports)| && (wrote <==> reports != old(reports))
        invariant forall j | 0 <= j < |reports| ::
          reports[j] == if j < k then WrittenBack(w, old(reports)[j], old(reports)[j].id in helping) else old(reports)[j]
      {
        var row := WrittenBack(w, reports[k], reports[k].id in helping);
        if row != reports[k] {
          reports, wrote := reports[k := row], true;
          assert reports[k] != old(reports)[k];
        }
      }
    }

    /** `setOutcomes` and `voidReportsOf`: the reports that did not say so already, now do. */
    method SetOutcomes(which: Report -> bool, outcome: Outcome, who: By) returns (resolved: set<string>)
      modifies this`reports
      ensures reports == OverruledAll(old(reports), which, outcome, who)
      ensures resolved == ResolvedIn(old(reports), which, outcome, who)
    {
      resolved := {};
      ghost var ruled := OverruledAll(reports, which, outcome, who);
      for k := 0 to |reports|
        invariant |reports| == |ruled| == |old(reports)|
        invariant forall j {:trigger reports[j]} | 0 <= j < |reports| :: reports[j] == if j < k then ruled[j] else old(reports)[j]
        invariant resolved == ResolvedIn(old(reports)[..k], which, outcome, who)
      {
        ResolvedNext(old(reports), k, which, outcome, who);
        var r := reports[k];
        var changes := which(r) && Resolvable(r, outcome, who);
        assert ruled[k] == if changes then Overruled(r, outcome, who) else r;
        if changes { reports, resolved := reports[k := Overruled(r, outcome, who)], resolved + {r.id}; }
      }
      assert old(reports)[..|old(reports)|] == old(reports) && reports == ruled;
    }

    /** `resolve`: nothing at all when nothing was left to resolve. */
    method ResolveReports(w: World, ids: set<string>, outcome: Outcome, who: By)
      returns (resolved: set<string>, changed: set<string>)
      modifies this
      ensures resolved == ResolvedIn(old(reports), Among(ids), outcome, who)
      ensures forall id ::
                id in resolved <==> id in ids && exists r | r in old(reports) :: r.id == id && Unlike(r, outcome, who)
      ensures resolved == {} ==> Contents() == old(Contents()) && changed == {}
      ensures resolved != {} ==>
        var s := State(OverruledAll(old(reports), Among(ids), outcome, who), old(evidence));
        Contents() == Aggregated(w, s) && changed == Announced(w, s)
    {
      resolved := SetOutcomes(Among(ids), outcome, who);
      ResolvedAre(old(reports), Among(ids), outcome, who);
      changed := {};
      if resolved == {} {
        NothingResolved(old(reports), Among(ids), outcome, who);
        return;
      }
      var wrote;
      changed, wrote := AggregateReports(w);
    }

    /** `onStandingChanged`: a banned reporter's reports are voided, and their listings recomputed if any was not yet. */
    method VoidReportsOf(w: World, banned: set<string>) returns (voided: set<string>, changed: set<string>)
      modifies this
      ensures voided == ResolvedIn(old(reports), ReportedBy(banned), Void, Ban)
      ensures forall id ::
                id in voided <==> exists r | r in old(reports) :: r.id == id && r.reporter in banned && Unlike(r, Void, Ban)
      ensures voided == {} ==> Contents() == old(Contents()) && changed == {}
      ensures voided != {} ==>
        var s := State(OverruledAll(old(reports), ReportedBy(banned), Void, Ban), old(evidence));
        Contents() == Aggregated(w, s) && changed == Announced(w, s)
    {
      voided := SetOutcomes(ReportedBy(banned), Void, Ban);
      ResolvedAre(old(reports), ReportedBy(banned), Void, Ban);
      changed := {};
      if voided == {} {
        NothingResolved(old(reports), ReportedBy(banned), Void, Ban);
        return;
      }
      var wrote;
      changed, wrote := AggregateReports(w);
    }

    /** `aggregate`: a second call on what the first one left makes no write and names no listing. */
    method AggregateReports(w: World) returns (changed: set<string>, wrote: bool)
      modifies this
      ensures Contents() == Aggregated(w, old(Contents())) && changed == Announced(w, old(Contents()))
      ensures wrote <==> changed != {} || reports != old(reports)
      ensures (exists s :: old(Contents()) == Aggregated(w, s)) ==>
                Contents() == old(Contents()) && changed == {} && !wrote
    {
      var keys := AllKeys(w, w.targets);
      var helping;
      changed, helping := RefreshAll(w, keys);
      wrote := WriteBackAll(w, helping);
      wrote := wrote || changed != {};
      assert reports == Aggregated(w, old(Contents())).reports;
      if s :| old(Contents()) == Aggregated(w, s) { AggregateIsAFixedPoint(w, s); }
    }
  }
}
