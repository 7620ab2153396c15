/** One immutable draft per billing window, however often a run is repeated. */
module Runner {
  import opened Numbers

  // What a run computes from. The flags are the facts it branches on: whether
  // every check up to pricing passes, the distribution model, an accepted
  // e66/1 delivery, a configured battery. The rest is the content.
  datatype Inputs = Inputs(complete: bool, einfach: bool, delivery: bool, battery: bool, content: int)

  // Source quantities under a rounding certificate, or the billed VNB split.
  datatype Basis = Source | Split

  datatype Refusal = Incomplete | AllocationMismatch | InputsChanged

  datatype Outcome = Created(id: int) | AlreadyProcessed(id: int) | Refused(why: Refusal)

  // A stored period; marked if its reconciliation names a precision policy,
  // open while it is still a draft.
  datatype Draft = Draft(id: int, fingerprint: int, marked: bool, open: bool)

  datatype Request = Request(window: int, inputs: Inputs)

  // The deterministic parts of a run: the source audit, the exact comparison
  // of split and allocation, the fingerprint of inputs and priced draft, and
  // the one an older release would have stored, if it would have priced them.
  datatype Rules = Rules(certified: Inputs -> bool, exact: Inputs -> bool,
                         fingerprint: (Inputs, Basis) -> int, older: (Inputs, Basis) -> Option<int>)

  datatype Periods = Periods(drafts: map<int, Draft>, nextId: int)

  // Equal fingerprints, of either shape, come from equal inputs.
  ghost predicate Collisionless(rules: Rules) {
    && (forall a, b, x, y :: rules.fingerprint(a, x) == rules.fingerprint(b, y) ==> a == b && x == y)
    && (forall a, b, x, y :: rules.older(a, x) == Some(rules.fingerprint(b, y)) ==> a == b)
  }

  // An unmarked einfach draft keeps the pricing it was made with.
  function BasisOf(inputs: Inputs, existing: Option<Draft>): Basis {
    var legacy := inputs.einfach && existing.Some? && !existing.value.marked;
    if inputs.delivery && !inputs.battery && !legacy then Source else Split
  }

  predicate Acceptable(inputs: Inputs, basis: Basis, rules: Rules) {
    && (basis == Source || (inputs.battery && inputs.delivery) ==> rules.certified(inputs))
    && (basis == Split ==> rules.exact(inputs))
  }

  function Existing(p: Periods, window: int): Option<Draft> {
    if window in p.drafts then Some(p.drafts[window]) else None
  }

  // The stored fingerprint is this run's, or the older one of an open draft.
  predicate Matches(existing: Draft, inputs: Inputs, basis: Basis, rules: Rules) {
    || existing.fingerprint == rules.fingerprint(inputs, basis)
    || (existing.open && rules.older(inputs, basis) == Some(existing.fingerprint))
  }

  function Decide(p: Periods, r: Request, rules: Rules): Outcome {
    var existing := Existing(p, r.window);
    var basis := BasisOf(r.inputs, existing);
    if !r.inputs.complete then Refused(Incomplete)
    else if !Acceptable(r.inputs, basis, rules) then Refused(AllocationMismatch)
    else if existing.None? then Created(p.nextId)
    else if !Matches(existing.value, r.inputs, basis, rules) then Refused(InputsChanged)
    else AlreadyProcessed(existing.value.id)
  }

  function Step(p: Periods, r: Request, rules: Rules): Periods {
    if Decide(p, r, rules).Created? then
      var basis := BasisOf(r.inputs, None);
      Periods(p.drafts[r.window := Draft(p.nextId, rules.fingerprint(r.inputs, basis), basis == Source, true)], p.nextId + 1)
    else p
  }

  class PeriodStore {
    var drafts: map<int, Draft>
    var nextId: int

    ghost function State(): Periods
      reads this
    {
      Periods(drafts, nextId)
    }

    constructor (drafts: map<int, Draft>, nextId: int)
      ensures State() == Periods(drafts, nextId)
    {
      this.drafts, this.nextId := drafts, nextId;
    }

    method Save(window: int, draft: Draft) returns (id: int)
      requires window !in drafts && draft.id == nextId
      modifies this
      ensures id == old(nextId) && State() == Periods(old(drafts)[window := draft], old(nextId) + 1)
    {
      id := nextId;
      drafts, nextId := drafts[window := draft], nextId + 1;
    }

    method RunBillingPeriod(r: Request, rules: Rules) returns (o: Outcome)
      modifies this
      ensures o == Decide(old(State()), r, rules)
      ensures State() == Step(old(State()), r, rules)
    {
      if !r.inputs.complete {
        return Refused(Incomplete);
      }
      var existing := if r.window in drafts then Some(drafts[r.window]) else None;
      var legacy := r.inputs.einfach && existing.Some? && !existing.value.marked;
      var basis := if r.inputs.delivery && !r.inputs.battery && !legacy then Source else Split;
      if basis == Source || (r.inputs.battery && r.inputs.delivery) {
        if !rules.certified(r.inputs) {
          return Refused(AllocationMismatch);
        }
      }
      if basis == Split && !rules.exact(r.inputs) {
        return Refused(AllocationMismatch);
      }
      var fingerprint := rules.fingerprint(r.inputs, basis);
      if existing.Some? {
        var matchesOlder := existing.value.fingerprint != fingerprint && existing.value.open
          && rules.older(r.inputs, basis) == Some(existing.value.fingerprint);
        if existing.value.fingerprint != fingerprint && !matchesOlder {
          return Refused(InputsChanged);
        }
        return AlreadyProcessed(existing.value.id);
      }
      var id := Save(r.window, Draft(nextId, fingerprint, basis == Source, true));
      o := Created(id);
    }
  }

  // ---------------------------------------------------------------------
  // Whole histories.

  // What happens to the store between runs: other runs, and drafts that are
  // submitted and approved.
  datatype Event = Asked(request: Request) | Closed(window: int)

  function After(p: Periods, e: Event, rules: Rules): Periods {
    match e
    case Asked(r) => Step(p, r, rules)
    case Closed(w) => if w in p.drafts then p.(drafts := p.drafts[w := p.drafts[w].(open := false)]) else p
  }

  function History(p: Periods, events: seq<Event>, rules: Rules): Periods {
    if events == [] then p else After(History(p, events[..|events| - 1], rules), events[|events| - 1], rules)
  }

  // Nothing but the status of a draft ever changes.
  predicate SameDraft(a: Draft, b: Draft) {
    a.id == b.id && a.fingerprint == b.fingerprint && a.marked == b.marked && (b.open ==> a.open)
  }

  ghost predicate Kept(p: Periods, later: Periods) {
    forall w :: w in p.drafts ==> w in later.drafts && SameDraft(p.drafts[w], later.drafts[w])
  }

  // Over any history no draft is removed, repriced or reopened.
  lemma {:induction false} DraftsAreImmutable(p: Periods, events: seq<Event>, rules: Rules)
    ensures Kept(p, History(p, events, rules))
  {
    if events != [] {
      DraftsAreImmutable(p, events[..|events| - 1], rules);
    }
  }

  ghost predicate IdsBelowNext(p: Periods) {
    && (forall w :: w in p.drafts ==> p.drafts[w].id < p.nextId)
    && (forall w, v :: w in p.drafts && v in p.drafts && p.drafts[w].id == p.drafts[v].id ==> w == v)
  }

  lemma {:induction false} IdsStayUnique(p: Periods, events: seq<Event>, rules: Rules)
    requires IdsBelowNext(p)
    ensures IdsBelowNext(History(p, events, rules))
  {
    if events != [] {
      IdsStayUnique(p, events[..|events| - 1], rules);
    }
  }

  // Whatever happened in between, the same request finds its own draft,
  // although it now branches on the stored one.
  lemma {:induction false} ReplayFindsItsDraft(p: Periods, r: Request, between: seq<Event>, rules: Rules)
    requires Decide(p, r, rules).Created?
    ensures var later := History(Step(p, r, rules), between, rules);
      && Decide(later, r, rules) == AlreadyProcessed(Decide(p, r, rules).id)
      && Step(later, r, rules) == later
  {
    DraftsAreImmutable(Step(p, r, rules), between, rules);
  }

  // A draft an earlier release left unmarked is found again as well.
  lemma LegacyDraftIsKept(p: Periods, r: Request, stored: Draft, rules: Rules)
    requires r.window in p.drafts && p.drafts[r.window] == stored && !stored.marked
    requires r.inputs.complete && r.inputs.einfach && Acceptable(r.inputs, Split, rules)
    ensures Decide(p, r, rules) == AlreadyProcessed(stored.id) <==> Matches(stored, r.inputs, Split, rules)
    ensures Step(p, r, rules) == p
  {
    assert BasisOf(r.inputs, Existing(p, r.window)) == Split;
  }

  // A fresh window gets a draft exactly when the period is complete and its
  // pricing holds up: with a delivery and no battery the certificate decides,
  // whatever the split; otherwise the split must be exact, and a delivery
  // beside a battery certified.
  lemma FreshWindow(p: Periods, r: Request, rules: Rules)
    requires r.window !in p.drafts
    ensures Decide(p, r, rules) == Created(p.nextId) <==>
      && r.inputs.complete
      && if r.inputs.delivery && !r.inputs.battery then rules.certified(r.inputs)
         else rules.exact(r.inputs) && (r.inputs.delivery ==> rules.certified(r.inputs))
    ensures Decide(p, r, rules) == Refused(Incomplete) <==> !r.inputs.complete
    ensures Decide(p, r, rules) in {Created(p.nextId), Refused(Incomplete), Refused(AllocationMismatch)}
    ensures Decide(p, r, rules).Created? ==>
      var source := r.inputs.delivery && !r.inputs.battery;
      Step(p, r, rules) == Periods(
        p.drafts[r.window := Draft(p.nextId, rules.fingerprint(r.inputs, if source then Source else Split), source, true)],
        p.nextId + 1)
    ensures !Decide(p, r, rules).Created? ==> Step(p, r, rules) == p
  {
  }

  // A window with a draft is never drafted again. Only an unmarked einfach draft
  // keeps the split as its pricing beside a delivery; a run is refused as
  // incomplete, for its allocation, or because its fingerprint is neither the
  // stored one nor, for an open draft, the older one.
  lemma StoredWindow(p: Periods, r: Request, stored: Draft, rules: Rules)
    requires r.window in p.drafts && p.drafts[r.window] == stored
    ensures var source := r.inputs.delivery && !r.inputs.battery && (r.inputs.einfach ==> stored.marked);
            var basis := if source then Source else Split;
            var sound := if source then rules.certified(r.inputs)
                         else rules.exact(r.inputs) && (r.inputs.delivery && r.inputs.battery ==> rules.certified(r.inputs));
            var same := stored.fingerprint == rules.fingerprint(r.inputs, basis)
                        || (stored.open && rules.older(r.inputs, basis) == Some(stored.fingerprint));
      && (Decide(p, r, rules) == Refused(Incomplete) <==> !r.inputs.complete)
      && (Decide(p, r, rules) == Refused(AllocationMismatch) <==> r.inputs.complete && !sound)
      && (Decide(p, r, rules) == Refused(InputsChanged) <==> r.inputs.complete && sound && !same)
      && (Decide(p, r, rules) == AlreadyProcessed(stored.id) <==> r.inputs.complete && sound && same)
    ensures Step(p, r, rules) == p
  {
  }

  // Once a window has a draft, a run changes nothing; it is answered iff it
  // carries the very inputs the draft was made from, and refused otherwise.
  lemma {:induction false} OnlyTheSameInputsAreAnswered(p: Periods, r: Request, between: seq<Event>, other: Request, rules: Rules)
    requires Collisionless(rules) && Decide(p, r, rules).Created? && other.window == r.window
    ensures var later := History(Step(p, r, rules), between, rules);
      && Step(later, other, rules) == later
      && (Decide(later, other, rules).AlreadyProcessed? <==> other.inputs == r.inputs)
      && (other.inputs != r.inputs ==> Decide(later, other, rules).Refused?)
  {
    ReplayFindsItsDraft(p, r, between, rules);
    DraftsAreImmutable(Step(p, r, rules), between, rules);
  }
}
