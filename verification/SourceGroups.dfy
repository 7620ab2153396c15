/** Grouping an accepted E66 delivery by quarter hour. The code compares one
    count and one set per key; together they amount to an exact cover. */
module SourceGroups {
  import opened Numbers
  import opened Reconciliation

  datatype Direction = Consumption | Production | OtherDirection

  datatype Mapping = Mapping(point: int, building: Option<int>, directions: seq<Direction>)

  datatype SourceRecord = SourceRecord(measuredAt: int, point: int, participant: int, direction: Direction,
                                       billed: real, total: real, community: real, grid: real)

  // Moments are seconds UTC; `supported` stands for the status, lifecycle,
  // format and precision tests on the delivery's head.
  datatype Delivery = Delivery(supported: bool, start: int, end: int,
                               mappings: seq<Mapping>, records: seq<SourceRecord>)

  datatype Refusal = UnsupportedProfile | IncompleteSource | InconsistentSource | InvalidPrecision

  datatype Grouping = Grouped(groups: map<int, Group>) | Refused(reason: Refusal)

  type Identity = (int, int, Direction)

  const QUARTER := 900

  predicate Aligned(moment: int) {
    moment % QUARTER == 0
  }

  function IdentityOf(r: SourceRecord): Identity {
    (r.point, r.participant, r.direction)
  }

  function ChannelsOf(r: SourceRecord): Option<Channels> {
    var total, local, residual := MakeCell(r.total), MakeCell(r.community), MakeCell(r.grid);
    if total.Some? && local.Some? && residual.Some? then
      Some(Channels(total.value, local.value, residual.value))
    else None
  }

  // ---------------------------------------------------------------------
  // What an accepted delivery is.

  ghost predicate Slot(d: Delivery, moment: int) {
    d.start <= moment < d.end && Aligned(moment)
  }

  // Quarter hours of the clock, in seconds.
  lemma SlotIs(d: Delivery, moment: int)
    ensures Slot(d, moment) <==> d.start <= moment < d.end && moment % 900 == 0
  {
  }

  ghost predicate Declares(m: Mapping, id: Identity) {
    m.point == id.0 && m.building == Some(id.1) && id.2 in m.directions
  }

  ghost predicate Declared(d: Delivery, id: Identity) {
    exists k :: 0 <= k < |d.mappings| && Declares(d.mappings[k], id)
  }

  ghost predicate ValidMapping(m: Mapping) {
    m.building.Some? && OtherDirection !in m.directions
  }

  ghost predicate ValidMappings(d: Delivery) {
    && (forall k :: 0 <= k < |d.mappings| ==> ValidMapping(d.mappings[k]))
    && (forall k, l :: 0 <= k < l < |d.mappings| ==> d.mappings[k].point != d.mappings[l].point)
    && (exists id :: Declared(d, id))
  }

  ghost predicate SameReading(a: SourceRecord, b: SourceRecord) {
    a.measuredAt == b.measuredAt && IdentityOf(a) == IdentityOf(b)
  }

  ghost predicate Reads(r: SourceRecord, moment: int, id: Identity) {
    r.measuredAt == moment && IdentityOf(r) == id
  }

  ghost predicate HasMoment(records: seq<SourceRecord>, moment: int) {
    exists i :: 0 <= i < |records| && records[i].measuredAt == moment
  }

  ghost predicate HasReading(records: seq<SourceRecord>, moment: int, id: Identity) {
    exists i :: 0 <= i < |records| && Reads(records[i], moment, id)
  }

  // Every declared series has exactly one reading in every quarter hour of the
  // period, and there is no other reading.
  ghost predicate ExactCover(d: Delivery) {
    && (forall i :: 0 <= i < |d.records| ==>
          Slot(d, d.records[i].measuredAt) && Declared(d, IdentityOf(d.records[i])))
    && (forall i, j :: 0 <= i < j < |d.records| ==> !SameReading(d.records[i], d.records[j]))
    && (forall moment, id :: Slot(d, moment) && Declared(d, id) ==> HasReading(d.records, moment, id))
  }

  ghost predicate Faithful(d: Delivery) {
    forall i :: 0 <= i < |d.records| ==>
      d.records[i].billed == d.records[i].community && ChannelsOf(d.records[i]).Some?
  }

  ghost predicate Accepted(d: Delivery) {
    && d.supported && Aligned(d.start) && Aligned(d.end) && d.start < d.end
    && ValidMappings(d) && ExactCover(d) && Faithful(d)
  }

  // The channels of one quarter hour, in the order of the records.
  function GroupAt(records: seq<SourceRecord>, moment: int): Group {
    if records == [] then Group([], []) else
      var group := GroupAt(records[..|records| - 1], moment);
      var last := records[|records| - 1];
      if last.measuredAt != moment || ChannelsOf(last).None? then group
      else if last.direction == Consumption then
        group.(consumption := group.consumption + [ChannelsOf(last).value])
      else group.(production := group.production + [ChannelsOf(last).value])
  }

  // ---------------------------------------------------------------------
  // Pigeonhole: as many keys as quarter hours means every quarter hour.

  predicate OnGrid(start: int, count: nat, t: int) {
    start <= t < start + count * QUARTER && (t - start) % QUARTER == 0
  }

  function SlotSet(start: int, count: nat): (s: set<int>)
    ensures |s| == count
    ensures forall t :: t in s <==> OnGrid(start, count, t)
  {
    if count == 0 then {} else
      var rest := SlotSet(start, count - 1);
      OneMoreSlot(start, count);
      rest + {start + (count - 1) * QUARTER}
  }

  lemma OneMoreSlot(start: int, count: nat)
    requires count > 0
    ensures !OnGrid(start, count - 1, start + (count - 1) * QUARTER)
    ensures forall t :: OnGrid(start, count, t) <==>
      t == start + (count - 1) * QUARTER || OnGrid(start, count - 1, t)
  {
  }

  lemma SlotAt(d: Delivery, count: nat, t: int)
    requires Aligned(d.start) && d.start + count * QUARTER == d.end
    ensures t in SlotSet(d.start, count) <==> Slot(d, t)
  {
    SameGrid(d.start, t);
  }

  lemma SameGrid(start: int, t: int)
    requires Aligned(start)
    ensures (t - start) % QUARTER == 0 <==> Aligned(t)
  {
  }

  lemma FullSubset(keys: set<int>, slots: set<int>)
    requires keys <= slots
    ensures |keys| == |slots| <==> slots <= keys
  {
    var rest := slots - keys;
    assert slots == keys + rest && |slots| == |keys| + |rest|;
    assert |rest| == 0 <==> rest == {};
    assert rest == {} <==> slots <= keys;
  }

  lemma AllSlots(d: Delivery, keys: set<int>)
    requires Aligned(d.start) && Aligned(d.end) && d.start < d.end
    requires forall t :: t in keys ==> Slot(d, t)
    ensures |keys| == (d.end - d.start) / QUARTER <==> forall t :: Slot(d, t) ==> t in keys
  {
    var count := (d.end - d.start) / QUARTER;
    assert d.start + count * QUARTER == d.end;
    var slots := SlotSet(d.start, count);
    forall t
      ensures t in slots <==> Slot(d, t)
    {
      SlotAt(d, count, t);
    }
    forall t | t in keys
      ensures t in slots
    {
      assert Slot(d, t);
    }
    FullSubset(keys, slots);
    if slots <= keys {
      forall t | Slot(d, t)
        ensures t in keys
      {
        assert t in slots;
      }
    }
    if forall t :: Slot(d, t) ==> t in keys {
      forall t | t in slots
        ensures t in keys
      {
        assert Slot(d, t);
      }
    }
  }

  // ---------------------------------------------------------------------
  // The loops.

  method CollectExpected(mappings: seq<Mapping>) returns (expected: Option<set<Identity>>)
    ensures expected.Some? <==>
      && (forall k :: 0 <= k < |mappings| ==> ValidMapping(mappings[k]))
      && (forall k, l :: 0 <= k < l < |mappings| ==> mappings[k].point != mappings[l].point)
    ensures expected.Some? ==>
      forall id :: id in expected.value <==> exists k :: 0 <= k < |mappings| && Declares(mappings[k], id)
  {
    var points: set<int> := {};
    var collected: set<Identity> := {};
    for k := 0 to |mappings|
      invariant points == set l | 0 <= l < k :: mappings[l].point
      invariant forall l :: 0 <= l < k ==> ValidMapping(mappings[l])
      invariant forall l, m :: 0 <= l < m < k ==> mappings[l].point != mappings[m].point
      invariant forall id :: id in collected <==> exists l :: 0 <= l < k && Declares(mappings[l], id)
    {
      var m := mappings[k];
      if m.point in points || m.building.None? {
        return None;
      }
      points := points + {m.point};
      if OtherDirection in m.directions {
        return None;
      }
      collected := collected + set dir | dir in m.directions :: (m.point, m.building.value, dir);
    }
    return Some(collected);
  }

  function Add(group: Group, direction: Direction, channels: Channels): Group {
    if direction == Consumption then group.(consumption := group.consumption + [channels])
    else group.(production := group.production + [channels])
  }

  ghost predicate RecordOk(d: Delivery, record: SourceRecord) {
    && Slot(d, record.measuredAt) && Declared(d, IdentityOf(record))
    && record.billed == record.community && ChannelsOf(record).Some?
  }

  ghost predicate RecordsOk(d: Delivery, records: seq<SourceRecord>) {
    forall i :: 0 <= i < |records| ==> RecordOk(d, records[i])
  }

  ghost predicate NoRepeats(records: seq<SourceRecord>) {
    forall i, j :: 0 <= i < j < |records| ==> !SameReading(records[i], records[j])
  }

  // The two dictionaries after a prefix of the records.
  ghost predicate Collected(records: seq<SourceRecord>, groups: map<int, Group>, identities: map<int, set<Identity>>) {
    && groups.Keys == identities.Keys
    && (forall t :: t in groups <==> HasMoment(records, t))
    && (forall t :: t in groups ==> groups[t] == GroupAt(records, t))
    && (forall t, id :: t in identities ==> (id in identities[t] <==> HasReading(records, t, id)))
  }

  // The tests on one record, in their order.
  method RefuseRecord(d: Delivery, expected: set<Identity>, seen: set<Identity>, record: SourceRecord)
    returns (refusal: Option<Refusal>)
    requires forall id :: id in expected <==> Declared(d, id)
    ensures refusal.None? <==> RecordOk(d, record) && IdentityOf(record) !in seen
    ensures refusal.Some? ==> refusal.value != UnsupportedProfile
  {
    if !Aligned(record.measuredAt) {
      return Some(IncompleteSource);
    }
    if record.measuredAt < d.start || record.measuredAt >= d.end
      || IdentityOf(record) !in expected || IdentityOf(record) in seen {
      return Some(IncompleteSource);
    }
    if record.billed != record.community {
      return Some(InconsistentSource);
    }
    if ChannelsOf(record).None? {
      return Some(InvalidPrecision);
    }
    return None;
  }

  method CollectRecords(d: Delivery, expected: set<Identity>)
    returns (r: Option<(map<int, Group>, map<int, set<Identity>>)>, reason: Refusal)
    requires forall id :: id in expected <==> Declared(d, id)
    ensures r.Some? <==> RecordsOk(d, d.records) && NoRepeats(d.records)
    ensures r.Some? ==> Collected(d.records, r.value.0, r.value.1)
    ensures reason != UnsupportedProfile
  {
    var groups: map<int, Group> := map[];
    var identities: map<int, set<Identity>> := map[];
    reason := IncompleteSource;
    for i := 0 to |d.records|
      invariant CleanSoFar(d, d.records[..i], groups, identities)
    {
      var record := d.records[i];
      var moment, identity := record.measuredAt, IdentityOf(record);
      var seen := if moment in identities then identities[moment] else {};
      var refusal := RefuseRecord(d, expected, seen, record);
      if refusal.Some? {
        RefusalIsFinal(d, groups, identities, i);
        return None, refusal.value;
      }
      var channels := ChannelsOf(record);
      var group := if moment in groups then groups[moment] else Group([], []);
      CleanStep(d, d.records[..i], record, groups, group, identities, seen);
      identities := identities[moment := seen + {identity}];
      groups := groups[moment := Add(group, record.direction, channels.value)];
      assert d.records[..i + 1] == d.records[..i] + [record];
    }
    assert d.records[..|d.records|] == d.records;
    return Some((groups, identities)), reason;
  }

  ghost predicate CleanSoFar(d: Delivery, records: seq<SourceRecord>, groups: map<int, Group>,
                             identities: map<int, set<Identity>>)
  {
    RecordsOk(d, records) && NoRepeats(records) && Collected(records, groups, identities)
  }

  lemma RefusalIsFinal(d: Delivery, groups: map<int, Group>, identities: map<int, set<Identity>>, i: nat)
    requires i < |d.records| && Collected(d.records[..i], groups, identities)
    requires !RecordOk(d, d.records[i])
      || (d.records[i].measuredAt in identities && IdentityOf(d.records[i]) in identities[d.records[i].measuredAt])
    ensures !RecordsOk(d, d.records) || !NoRepeats(d.records)
  {
    if RecordOk(d, d.records[i]) {
      RepeatFound(d.records, groups, identities, i);
    }
  }

  lemma CleanStep(d: Delivery, before: seq<SourceRecord>, r: SourceRecord, groups: map<int, Group>, group: Group,
                  identities: map<int, set<Identity>>, seen: set<Identity>)
    requires CleanSoFar(d, before, groups, identities) && RecordOk(d, r) && IdentityOf(r) !in seen
    requires seen == if r.measuredAt in identities then identities[r.measuredAt] else {}
    requires group == if r.measuredAt in groups then groups[r.measuredAt] else Group([], [])
    ensures CleanSoFar(d, before + [r], groups[r.measuredAt := Add(group, r.direction, ChannelsOf(r).value)],
                       identities[r.measuredAt := seen + {IdentityOf(r)}])
  {
    CollectStep(before, r, groups, group, identities, seen);
    StillNoRepeats(before, r, identities, groups);
    assert RecordsOk(d, before + [r]);
  }

  lemma RepeatFound(records: seq<SourceRecord>, groups: map<int, Group>, identities: map<int, set<Identity>>, i: nat)
    requires i < |records| && Collected(records[..i], groups, identities)
    requires records[i].measuredAt in identities && IdentityOf(records[i]) in identities[records[i].measuredAt]
    ensures !NoRepeats(records)
  {
    assert HasReading(records[..i], records[i].measuredAt, IdentityOf(records[i]));
    var k :| 0 <= k < i && Reads(records[..i][k], records[i].measuredAt, IdentityOf(records[i]));
    assert SameReading(records[k], records[i]);
  }

  lemma {:induction false} GroupAtAbsent(records: seq<SourceRecord>, moment: int)
    requires forall i :: 0 <= i < |records| ==> records[i].measuredAt != moment
    ensures GroupAt(records, moment) == Group([], [])
  {
    if records != [] {
      GroupAtAbsent(records[..|records| - 1], moment);
    }
  }

  lemma CollectMoments(before: seq<SourceRecord>, r: SourceRecord, groups: map<int, Group>, t: int)
    requires t in groups <==> HasMoment(before, t)
    ensures t == r.measuredAt || t in groups <==> HasMoment(before + [r], t)
  {
    MomentStep(before, r, t);
  }

  lemma CollectGroup(before: seq<SourceRecord>, r: SourceRecord, groups: map<int, Group>, group: Group)
    requires ChannelsOf(r).Some?
    requires r.measuredAt in groups <==> HasMoment(before, r.measuredAt)
    requires r.measuredAt in groups ==> groups[r.measuredAt] == GroupAt(before, r.measuredAt)
    requires group == if r.measuredAt in groups then groups[r.measuredAt] else Group([], [])
    ensures Add(group, r.direction, ChannelsOf(r).value) == GroupAt(before + [r], r.measuredAt)
  {
    if r.measuredAt !in groups {
      forall i | 0 <= i < |before|
        ensures before[i].measuredAt != r.measuredAt
      {
        assert !HasMoment(before, r.measuredAt);
      }
      GroupAtAbsent(before, r.measuredAt);
    }
    assert (before + [r])[..|before|] == before;
  }

  lemma OtherGroups(before: seq<SourceRecord>, r: SourceRecord, t: int)
    requires t != r.measuredAt
    ensures GroupAt(before + [r], t) == GroupAt(before, t)
  {
    assert (before + [r])[..|before|] == before;
  }

  // The two dictionaries after one more record.
  lemma CollectStep(before: seq<SourceRecord>, r: SourceRecord, groups: map<int, Group>, group: Group,
                    identities: map<int, set<Identity>>, seen: set<Identity>)
    requires Collected(before, groups, identities) && ChannelsOf(r).Some?
    requires seen == if r.measuredAt in identities then identities[r.measuredAt] else {}
    requires group == if r.measuredAt in groups then groups[r.measuredAt] else Group([], [])
    ensures Collected(before + [r], groups[r.measuredAt := Add(group, r.direction, ChannelsOf(r).value)],
                      identities[r.measuredAt := seen + {IdentityOf(r)}])
  {
    var groups' := groups[r.measuredAt := Add(group, r.direction, ChannelsOf(r).value)];
    var identities' := identities[r.measuredAt := seen + {IdentityOf(r)}];
    forall t
      ensures t in groups' <==> HasMoment(before + [r], t)
    {
      CollectMoments(before, r, groups, t);
    }
    forall t | t in groups'
      ensures groups'[t] == GroupAt(before + [r], t)
    {
      if t == r.measuredAt {
        CollectGroup(before, r, groups, group);
      } else {
        OtherGroups(before, r, t);
      }
    }
    forall t, id | t in identities'
      ensures id in identities'[t] <==> HasReading(before + [r], t, id)
    {
      CollectIdentity(before, r, identities, seen, t, id);
    }
  }

  lemma CollectIdentity(before: seq<SourceRecord>, r: SourceRecord, identities: map<int, set<Identity>>,
                        seen: set<Identity>, t: int, id: Identity)
    requires t in identities <==> HasMoment(before, t)
    requires t in identities ==> (id in identities[t] <==> HasReading(before, t, id))
    requires t == r.measuredAt ==> seen == if t in identities then identities[t] else {}
    requires t == r.measuredAt || t in identities
    ensures id in identities[r.measuredAt := seen + {IdentityOf(r)}][t] <==> HasReading(before + [r], t, id)
  {
    ReadingStep(before, r, t, id);
    if HasReading(before, t, id) {
      assert HasMoment(before, t);
    }
  }

  lemma MomentStep(before: seq<SourceRecord>, r: SourceRecord, t: int)
    ensures HasMoment(before + [r], t) <==> HasMoment(before, t) || t == r.measuredAt
  {
    var after := before + [r];
    if HasMoment(before, t) {
      var i :| 0 <= i < |before| && before[i].measuredAt == t;
      assert after[i].measuredAt == t;
    }
    assert after[|before|] == r;
  }

  lemma ReadingStep(before: seq<SourceRecord>, r: SourceRecord, t: int, id: Identity)
    ensures HasReading(before + [r], t, id) <==> HasReading(before, t, id) || Reads(r, t, id)
  {
    var after := before + [r];
    if HasReading(before, t, id) {
      var i :| 0 <= i < |before| && Reads(before[i], t, id);
      assert Reads(after[i], t, id);
    }
    assert after[|before|] == r;
  }

  lemma StillNoRepeats(before: seq<SourceRecord>, r: SourceRecord, identities: map<int, set<Identity>>,
                       groups: map<int, Group>)
    requires NoRepeats(before) && Collected(before, groups, identities)
    requires r.measuredAt in identities ==> IdentityOf(r) !in identities[r.measuredAt]
    ensures NoRepeats(before + [r])
  {
    forall i | 0 <= i < |before|
      ensures !SameReading(before[i], r)
    {
      if SameReading(before[i], r) {
        assert HasMoment(before, r.measuredAt);
        assert Reads(before[i], r.measuredAt, IdentityOf(r));
        assert HasReading(before, r.measuredAt, IdentityOf(r));
      }
    }
  }

  method GroupSource(d: Delivery) returns (r: Grouping)
    ensures r.Grouped? <==> Accepted(d)
    ensures r.Grouped? ==>
      && (forall t :: t in r.groups <==> Slot(d, t))
      && (forall t :: t in r.groups ==> r.groups[t] == GroupAt(d.records, t))
    ensures r == Refused(UnsupportedProfile) <==> !d.supported
  {
    if !d.supported {
      return Refused(UnsupportedProfile);
    }
    if !Aligned(d.start) || !Aligned(d.end) || d.end <= d.start {
      return Refused(IncompleteSource);
    }
    var expected := CollectExpected(d.mappings);
    if expected.None? {
      return Refused(IncompleteSource);
    }
    assert forall id :: id in expected.value <==> Declared(d, id);
    if expected.value == {} {
      return Refused(IncompleteSource);
    }
    r := GroupRecords(d, expected.value);
  }

  method GroupRecords(d: Delivery, expected: set<Identity>) returns (r: Grouping)
    requires Aligned(d.start) && Aligned(d.end) && d.start < d.end
    requires expected != {} && forall id :: id in expected <==> Declared(d, id)
    ensures r.Grouped? <==> ExactCover(d) && Faithful(d)
    ensures r.Grouped? ==>
      && (forall t :: t in r.groups <==> Slot(d, t))
      && (forall t :: t in r.groups ==> r.groups[t] == GroupAt(d.records, t))
    ensures r != Refused(UnsupportedProfile)
  {
    RowTests(d);
    var collected, reason := CollectRecords(d, expected);
    if collected.None? {
      return Refused(reason);
    }
    var (groups, identities) := collected.value;
    CountsDecide(d, expected, groups, identities);
    if |groups| != (d.end - d.start) / QUARTER || exists t | t in identities :: identities[t] != expected {
      return Refused(IncompleteSource);
    }
    return Grouped(groups);
  }

  lemma RowTests(d: Delivery)
    ensures RecordsOk(d, d.records) ==> Faithful(d)
    ensures ExactCover(d) && Faithful(d) ==> RecordsOk(d, d.records) && NoRepeats(d.records)
  {
  }

  // Covered slots and complete key sets are the exact cover.
  lemma CoverFromCounts(d: Delivery, expected: set<Identity>, groups: map<int, Group>, identities: map<int, set<Identity>>)
    requires forall id :: id in expected <==> Declared(d, id)
    requires expected != {}
    requires RecordsOk(d, d.records) && NoRepeats(d.records) && Collected(d.records, groups, identities)
    ensures ExactCover(d) <==>
      (forall t :: Slot(d, t) ==> t in groups) && (forall t :: t in identities ==> identities[t] == expected)
  {
    if ExactCover(d) {
      var some :| some in expected;
      forall t | Slot(d, t)
        ensures t in groups
      {
        assert HasReading(d.records, t, some);
        var i :| 0 <= i < |d.records| && Reads(d.records[i], t, some);
        assert HasMoment(d.records, t);
      }
      forall t | t in identities
        ensures identities[t] == expected
      {
        KeyIsComplete(d, expected, groups, identities, t);
      }
    }
    if (forall t :: Slot(d, t) ==> t in groups) && forall t :: t in identities ==> identities[t] == expected {
      forall moment, id | Slot(d, moment) && Declared(d, id)
        ensures HasReading(d.records, moment, id)
      {
        assert moment in identities && id in identities[moment];
      }
    }
  }

  // The count of keys and the per-key sets decide the exact cover.
  lemma CountsDecide(d: Delivery, expected: set<Identity>, groups: map<int, Group>, identities: map<int, set<Identity>>)
    requires Aligned(d.start) && Aligned(d.end) && d.start < d.end
    requires forall id :: id in expected <==> Declared(d, id)
    requires expected != {}
    requires RecordsOk(d, d.records) && NoRepeats(d.records) && Collected(d.records, groups, identities)
    ensures |groups| == (d.end - d.start) / QUARTER && (forall t :: t in identities ==> identities[t] == expected)
            <==> ExactCover(d)
    ensures ExactCover(d) ==> forall t :: t in groups <==> Slot(d, t)
  {
    forall t
      ensures t in groups ==> Slot(d, t)
    {
      KeysAreSlots(d, groups, identities, t);
    }
    assert |groups| == |groups.Keys|;
    AllSlots(d, groups.Keys);
    CoverFromCounts(d, expected, groups, identities);
  }

  lemma KeysAreSlots(d: Delivery, groups: map<int, Group>, identities: map<int, set<Identity>>, t: int)
    requires RecordsOk(d, d.records) && Collected(d.records, groups, identities)
    ensures t in groups ==> Slot(d, t)
  {
    if t in groups {
      assert HasMoment(d.records, t);
    }
  }

  lemma KeyIsComplete(d: Delivery, expected: set<Identity>, groups: map<int, Group>,
                      identities: map<int, set<Identity>>, t: int)
    requires forall id :: id in expected <==> Declared(d, id)
    requires RecordsOk(d, d.records) && Collected(d.records, groups, identities)
    requires ExactCover(d) && t in identities
    ensures identities[t] == expected
  {
    KeysAreSlots(d, groups, identities, t);
    forall id
      ensures id in identities[t] <==> id in expected
    {
      if id in identities[t] {
        assert HasReading(d.records, t, id);
      }
    }
  }
}
