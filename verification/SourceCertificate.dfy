/** The certificate of a whole delivery, under either allocation model: one
    witness for each quarter hour, or none at all. */
module SourceCertificate {
  import opened Numbers
  import opened Allocation
  import opened Search
  import opened SourceGroups
  import opened Audit
  import EinfachAudit
  import Invoices

  datatype Certificate =
    | CommonRatio(fingerprint: int, verdicts: map<int, Verdict>)
    | EqualSplit(fingerprint: int, splits: map<int, seq<real>>)

  // ---------------------------------------------------------------------
  // The records of one quarter hour, participants numbered in their order.

  function RecordsAt(records: seq<SourceRecord>, t: int): (r: seq<SourceRecord>)
    ensures forall i :: 0 <= i < |r| ==> r[i] in records && r[i].measuredAt == t
  {
    if records == [] then [] else
      var last := records[|records| - 1];
      RecordsAt(records[..|records| - 1], t) + if last.measuredAt == t then [last] else []
  }

  lemma {:induction false} RecordsAtKeeps(records: seq<SourceRecord>, i: nat)
    requires i < |records|
    ensures records[i] in RecordsAt(records, records[i].measuredAt)
  {
    var n := |records| - 1;
    if i < n {
      RecordsAtKeeps(records[..n], i);
    }
  }

  function ParticipantsOf(records: seq<SourceRecord>): (ids: seq<int>)
    ensures forall i :: 0 <= i < |records| ==> records[i].participant in ids
  {
    var all := seq(|records|, i requires 0 <= i < |records| => records[i].participant);
    assert forall i :: 0 <= i < |records| ==> all[i] == records[i].participant;
    Invoices.Sorted(all)
  }

  function Position(ids: seq<int>, id: int): (k: nat)
    requires id in ids
    ensures k < |ids| && ids[k] == id
  {
    if ids[0] == id then 0 else 1 + Position(ids[1..], id)
  }

  function SeriesOf(records: seq<SourceRecord>): (r: seq<EinfachAudit.Record>)
    ensures |r| == |records| && EinfachAudit.Numbered(r, |ParticipantsOf(records)|)
  {
    var ids := ParticipantsOf(records);
    seq(|records|, i requires 0 <= i < |records| =>
      var r := records[i];
      EinfachAudit.Record(Position(ids, r.participant), r.direction == Production, r.total, r.community, r.grid))
  }

  lemma SomeParticipant(records: seq<SourceRecord>)
    requires records != []
    ensures ParticipantsOf(records) != []
  {
    assert records[0].participant in ParticipantsOf(records);
  }

  ghost predicate SplitHolds(records: seq<SourceRecord>) {
    ParticipantsOf(records) != [] && EinfachAudit.Witnessed(SeriesOf(records), |ParticipantsOf(records)|)
  }

  ghost function SplitOutcome(records: seq<SourceRecord>): Option<seq<real>> {
    if SplitHolds(records) then Some(EinfachAudit.SplitOf(SeriesOf(records), |ParticipantsOf(records)|)) else None
  }

  // What the model's audit finds at each moment.
  ghost function SplitOutcomes(records: seq<SourceRecord>, moments: set<int>): map<int, Option<seq<real>>> {
    map t | t in moments :: SplitOutcome(RecordsAt(records, t))
  }

  ghost predicate AllHold(outcomes: map<int, Option<seq<real>>>) {
    forall t :: t in outcomes ==> outcomes[t].Some?
  }

  function Splits(outcomes: map<int, Option<seq<real>>>): map<int, seq<real>> {
    map t | t in outcomes && outcomes[t].Some? :: outcomes[t].value
  }

  // ---------------------------------------------------------------------
  // The certificate.

  ghost function CertificateOf(fingerprint: int, d: Delivery, model: Model): Option<Certificate> {
    if !Accepted(d) then None
    else if model == Proportional then
      if AllCertified(Verdicts(d)) then Some(CommonRatio(fingerprint, Verdicts(d))) else None
    else
      if AllHold(SplitOutcomes(d.records, Slots(d))) then Some(EqualSplit(fingerprint, Splits(SplitOutcomes(d.records, Slots(d))))) else None
  }

  lemma SlotHasRecords(d: Delivery, t: int)
    requires Accepted(d) && Slot(d, t)
    ensures RecordsAt(d.records, t) != []
  {
    var id :| Declared(d, id);
    assert HasReading(d.records, t, id);
    var i :| 0 <= i < |d.records| && Reads(d.records[i], t, id);
    RecordsAtKeeps(d.records, i);
  }

  // The quarter hours of a period, none without a record.
  ghost predicate Walkable(records: seq<SourceRecord>, start: int, end: int, moments: set<int>) {
    && Aligned(start)
    && (forall t :: t in moments <==> Due(start, t, end))
    && (forall t :: t in moments ==> RecordsAt(records, t) != [])
  }

  lemma AcceptedIsWalkable(d: Delivery)
    requires Accepted(d)
    ensures Walkable(d.records, d.start, d.end, Slots(d))
  {
    SlotsAreSlots(d);
    forall t
      ensures t in Slots(d) <==> Due(d.start, t, d.end)
      ensures t in Slots(d) ==> RecordsAt(d.records, t) != []
    {
      if Slot(d, t) {
        SlotHasRecords(d, t);
      }
    }
  }

  method JudgeSplit(records: seq<SourceRecord>) returns (r: Option<seq<real>>)
    requires records != []
    ensures r == SplitOutcome(records)
  {
    SomeParticipant(records);
    r := EinfachAudit.EinfachIntervalWitness(SeriesOf(records), |ParticipantsOf(records)|);
  }

  method AuditEinfach(d: Delivery) returns (r: Option<map<int, seq<real>>>)
    ensures r.Some? <==> Accepted(d) && AllHold(SplitOutcomes(d.records, Slots(d)))
    ensures r.Some? ==> r.value == Splits(SplitOutcomes(d.records, Slots(d)))
  {
    var grouping := GroupSource(d);
    if grouping.Refused? {
      return None;
    }
    AcceptedIsWalkable(d);
    r := WalkSplits(d.records, d.start, d.end, Slots(d));
  }

  method WalkSplits(records: seq<SourceRecord>, start: int, end: int, ghost moments: set<int>)
    returns (r: Option<map<int, seq<real>>>)
    requires Walkable(records, start, end, moments)
    ensures r.Some? <==> AllHold(SplitOutcomes(records, moments))
    ensures r.Some? ==> r.value == Splits(SplitOutcomes(records, moments))
  {
    var splits: map<int, seq<real>> := map[];
    var moment := start;
    while moment < end
      invariant Aligned(moment) && start <= moment
      invariant HoldBefore(records, moments, moment, splits)
      decreases end - moment
    {
      assert Due(start, moment, end);
      var split := JudgeSplit(RecordsAt(records, moment));
      if split.None? {
        OneFails(records, moments, moment);
        return None;
      }
      NextHolds(records, start, end, moments, moment, splits, split.value);
      splits := splits[moment := split.value];
      moment := moment + QUARTER;
    }
    AllWalked(records, start, end, moments, moment, splits);
    return Some(splits);
  }

  ghost predicate HoldBefore(records: seq<SourceRecord>, moments: set<int>, moment: int, splits: map<int, seq<real>>) {
    && (forall t :: t in splits <==> t in moments && t < moment)
    && (forall t :: t in splits ==> SplitOutcome(RecordsAt(records, t)) == Some(splits[t]))
  }

  lemma OneFails(records: seq<SourceRecord>, moments: set<int>, t: int)
    requires t in moments && SplitOutcome(RecordsAt(records, t)) == None
    ensures !AllHold(SplitOutcomes(records, moments))
  {
    assert SplitOutcomes(records, moments)[t] == None;
  }

  lemma NextHolds(records: seq<SourceRecord>, start: int, end: int, moments: set<int>, moment: int,
                  splits: map<int, seq<real>>, split: seq<real>)
    requires Walkable(records, start, end, moments) && Aligned(moment) && moment in moments
    requires HoldBefore(records, moments, moment, splits)
    requires SplitOutcome(RecordsAt(records, moment)) == Some(split)
    ensures HoldBefore(records, moments, moment + QUARTER, splits[moment := split]) && Aligned(moment + QUARTER)
  {
    NextDue(start, moment, end);
    forall t
      ensures t in moments && t < moment + QUARTER <==> (t in moments && t < moment) || t == moment
    {
      assert t in moments <==> Due(start, t, end);
    }
  }

  lemma AllWalked(records: seq<SourceRecord>, start: int, end: int, moments: set<int>, moment: int,
                  splits: map<int, seq<real>>)
    requires Walkable(records, start, end, moments) && end <= moment
    requires HoldBefore(records, moments, moment, splits)
    ensures AllHold(SplitOutcomes(records, moments)) && splits == Splits(SplitOutcomes(records, moments))
  {
    forall t
      ensures t in splits <==> t in moments
    {
      assert t in moments <==> Due(start, t, end);
    }
  }

  // The audit of a delivery: the certificate it carries, if any.
  method AuditE66(fingerprint: int, d: Delivery, model: Model) returns (r: Option<Certificate>)
    ensures r == CertificateOf(fingerprint, d, model)
  {
    if model == Einfach {
      var splits := AuditEinfach(d);
      return if splits.Some? then Some(EqualSplit(fingerprint, splits.value)) else None;
    }
    var result := AuditProportional(d);
    r := if result.Certificate? then Some(CommonRatio(fingerprint, result.intervals)) else None;
  }
}
