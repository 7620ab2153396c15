/** The proportional audit of a whole delivery: grouping, then one certificate
    per quarter hour. */
module Audit {
  import opened Reconciliation
  import opened Search
  import opened SourceGroups

  datatype AuditResult =
    | Certificate(intervals: map<int, Verdict>)
    | SourceRefused(reason: Refusal)
    | AllocationDisagreement(moment: int)
    | UnresolvedBoundary(moment: int)

  // Some exact proportional allocation explains every cell of the interval.
  ghost predicate Explained(group: Group) {
    exists side :: Explainable(group, side)
  }

  // An interval the search leaves open: no explanation by the simple ratios,
  // and at best ratios within 2^-128 of the initial bounds of each other.
  ghost predicate Open(group: Group) {
    !SimplyExplained(group) && !StuckBothWays(group) && forall side :: Explainable(group, side) ==> Narrow(group, side)
  }

  lemma VerdictMeans(group: Group)
    ensures WitnessOf(group).Certified? ==> Explained(group)
    ensures WitnessOf(group) == Disagreement ==> !Explained(group)
    ensures WitnessOf(group) == Unresolved ==> Open(group)
  {
    RefusalExact(group);
    if WitnessOf(group).Certified? {
      WitnessIsSound(group);
      assert Explainable(group, WitnessOf(group).limiting);
    }
  }

  ghost predicate Due(start: int, moment: int, end: int) {
    start <= moment < end && Aligned(moment)
  }

  function VerdictsOf(groups: map<int, Group>): map<int, Verdict> {
    map t | t in groups :: WitnessOf(groups[t])
  }

  predicate AllCertified(verdicts: map<int, Verdict>) {
    forall t :: t in verdicts ==> verdicts[t].Certified?
  }

  // The earliest interval without a witness.
  ghost predicate FirstRefused(verdicts: map<int, Verdict>, moment: int) {
    && moment in verdicts && !verdicts[moment].Certified?
    && forall t :: t in verdicts && t < moment ==> verdicts[t].Certified?
  }

  ghost predicate ResultOf(r: AuditResult, verdicts: map<int, Verdict>) {
    match r
    case Certificate(intervals) => AllCertified(verdicts) && intervals == verdicts
    case AllocationDisagreement(moment) => FirstRefused(verdicts, moment) && verdicts[moment] == Disagreement
    case UnresolvedBoundary(moment) => FirstRefused(verdicts, moment) && verdicts[moment] == Unresolved
    case SourceRefused(_) => false
  }

  // The intervals are walked in time order; the first one without a witness refuses all.
  method AuditGroups(start: int, end: int, groups: map<int, Group>) returns (r: AuditResult)
    requires Aligned(start)
    requires forall t :: t in groups <==> Due(start, t, end)
    ensures ResultOf(r, VerdictsOf(groups))
  {
    ghost var verdicts := VerdictsOf(groups);
    var intervals: map<int, Verdict> := map[];
    var moment := start;
    while moment < end
      invariant Aligned(moment) && start <= moment
      invariant forall t :: t in intervals <==> t in verdicts && t < moment
      invariant forall t :: t in intervals ==> intervals[t] == verdicts[t] && intervals[t].Certified?
      decreases end - moment
    {
      assert Due(start, moment, end);
      var verdict := Judge(groups, moment);
      if verdict == Disagreement {
        return AllocationDisagreement(moment);
      }
      if verdict == Unresolved {
        return UnresolvedBoundary(moment);
      }
      intervals := intervals[moment := verdict];
      NextDue(start, moment, end);
      moment := moment + QUARTER;
    }
    forall t
      ensures t in intervals <==> t in verdicts
    {
      assert t in groups <==> Due(start, t, end);
    }
    assert intervals == verdicts;
    return Certificate(intervals);
  }

  method Judge(groups: map<int, Group>, moment: int) returns (v: Verdict)
    requires moment in groups
    ensures v == VerdictsOf(groups)[moment]
  {
    v := IntervalWitness(groups[moment]);
  }

  lemma NextDue(start: int, moment: int, end: int)
    requires Aligned(moment)
    ensures Aligned(moment + QUARTER)
    ensures forall t :: Due(start, t, end) && t < moment + QUARTER ==> t <= moment
  {
  }

  // ---------------------------------------------------------------------
  // The whole delivery.

  function Slots(d: Delivery): set<int> {
    if d.start <= d.end then SlotSet(d.start, (d.end - d.start) / QUARTER) else {}
  }

  // One verdict for each quarter hour of the period.
  function Verdicts(d: Delivery): map<int, Verdict> {
    map t | t in Slots(d) :: WitnessOf(GroupAt(d.records, t))
  }

  lemma SlotsAreSlots(d: Delivery)
    requires Aligned(d.start) && Aligned(d.end) && d.start < d.end
    ensures forall t :: t in Slots(d) <==> Slot(d, t)
  {
    var count := (d.end - d.start) / QUARTER;
    assert d.start + count * QUARTER == d.end;
    forall t
      ensures t in Slots(d) <==> Slot(d, t)
    {
      SlotAt(d, count, t);
    }
  }

  lemma SameVerdicts(d: Delivery, groups: map<int, Group>)
    requires Aligned(d.start) && Aligned(d.end) && d.start < d.end
    requires forall t :: t in groups <==> Slot(d, t)
    requires forall t :: t in groups ==> groups[t] == GroupAt(d.records, t)
    ensures VerdictsOf(groups) == Verdicts(d)
  {
    SlotsAreSlots(d);
    forall t
      ensures t in groups <==> t in Slots(d)
    {
      assert t in groups <==> Slot(d, t);
    }
  }

  // An accepted delivery is certified quarter by quarter or refused at its
  // first quarter hour without a witness.
  method AuditProportional(d: Delivery) returns (r: AuditResult)
    ensures r.SourceRefused? <==> !Accepted(d)
    ensures Accepted(d) ==> ResultOf(r, Verdicts(d))
  {
    var grouping := GroupSource(d);
    if grouping.Refused? {
      return SourceRefused(grouping.reason);
    }
    var groups := grouping.groups;
    assert forall t :: t in groups <==> Due(d.start, t, d.end);
    SameVerdicts(d, groups);
    r := AuditGroups(d.start, d.end, groups);
  }

  // What a verdict says about the readings of its quarter hour.
  lemma VerdictsMean(d: Delivery, t: int)
    requires t in Verdicts(d)
    ensures Verdicts(d)[t].Certified? ==> Explained(GroupAt(d.records, t))
    ensures Verdicts(d)[t] == Disagreement ==> !Explained(GroupAt(d.records, t))
    ensures Verdicts(d)[t] == Unresolved ==> Open(GroupAt(d.records, t))
  {
    VerdictMeans(GroupAt(d.records, t));
  }
}
