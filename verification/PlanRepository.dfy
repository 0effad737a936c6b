/** Plans on disk (packages/dsh-luban-plan/src/repository.ts): a state, and a document for each plan. */
module PlanRepository {
  import opened Wrappers
  import opened Plans

  type Location = (string, string)

  function LocationOf(p: Plan): Location {
    (p.workspace, p.filePath)
  }

  /** What is on disk: the plans of the state file and the documents by location. */
  datatype Store = Store(plans: seq<Plan>, documents: map<Location, string>)

  type Render = Plan -> string

  /** Every stored plan has its own document, and the document is the plan's rendering. */
  ghost predicate Agrees(s: Store, render: Render) {
    (forall i, j :: 0 <= i < j < |s.plans| ==> LocationOf(s.plans[i]) != LocationOf(s.plans[j]))
    && forall i :: 0 <= i < |s.plans| ==> DocumentAgrees(s, s.plans[i], render)
  }

  ghost predicate DocumentAgrees(s: Store, p: Plan, render: Render) {
    LocationOf(p) in s.documents && s.documents[LocationOf(p)] == render(p)
  }

  // ----- Create -----

  /** How a creation can fail: the document is refused, or is linked although the write reports a failure; the state
      is not published, or is published although the update reports a failure; then the document is removed or not. */
  datatype CreateFault =
    | NoFault
    | DocumentRefused
    | DocumentLeftBehind
    | StateLost(removed: bool)
    | StateLate(removed: bool)

  function AfterCreate(s: Store, p: Plan, render: Render, fault: CreateFault): (Store, Result<Plan, Error>) {
    var at := LocationOf(p);
    var written := s.documents[at := render(p)];
    if fault.DocumentRefused? then (s, Err(Io))
    else if at in s.documents then (s, Err(VersionConflict))
    else
      match fault
      case DocumentLeftBehind => (s.(documents := written), Err(Io))
      case StateLost(removed) => (Store(s.plans, if removed then written - {at} else written), Err(Io))
      case StateLate(removed) => (Store(s.plans + [p], if removed then written - {at} else written), Err(Io))
      case _ => (Store(s.plans + [p], written), Ok(p))
  }

  // ----- Update -----

  datatype Publish = Published | Lost | Late

  datatype UpdateFault = UpdateFault(readFails: bool, documentFails: bool, publish: Publish,
                                     rereadFails: bool, rewriteFails: bool)

  /** The first plan with the id. */
  function FindPlan(plans: seq<Plan>, id: string): (r: Option<nat>)
    ensures r.Some? ==> r.value < |plans| && plans[r.value].id == id
    ensures r.None? ==> forall i :: 0 <= i < |plans| ==> plans[i].id != id
  {
    if plans == [] then None
    else if plans[0].id == id then Some(0)
    else
      match FindPlan(plans[1..], id)
      case None => None
      case Some(i) => Some(i + 1)
  }

  /** The plan that an update would write next, or why it writes none. */
  function NextVersion(s: Store, id: string, expectedVersion: int,
                       mutate: Plan -> Result<Plan, Error>): Result<(nat, Plan), Error> {
    match FindPlan(s.plans, id)
    case None => Err(NotFound)
    case Some(i) =>
      var current := s.plans[i];
      if current.version != expectedVersion then Err(VersionConflict)
      else
        match mutate(current)
        case Err(e) => Err(e)
        case Ok(next) => if SameIdentity(current, next) then Ok((i, next)) else Err(InvalidInput)
  }

  /** The document first, then the state. When the state fails after the document was written, the document is
      rendered again from whatever the state file then says; if even that fails, the error says so. */
  function AfterUpdate(s: Store, id: string, expectedVersion: int, mutate: Plan -> Result<Plan, Error>, render: Render,
                       fault: UpdateFault): (Store, Result<Plan, Error>)
  {
    if fault.readFails then (s, Err(Io))
    else
      match NextVersion(s, id, expectedVersion, mutate)
      case Err(e) => (s, Err(e))
      case Ok((i, next)) =>
        if fault.documentFails then (s, Err(Io))
        else
          var plans := if fault.publish.Lost? then s.plans else s.plans[i := next];
          var written := Store(plans, s.documents[LocationOf(next) := render(next)]);
          if fault.publish.Published? then (written, Ok(next))
          else if fault.rereadFails || fault.rewriteFails then (written, Err(Unreconciled))
          else (Store(plans, written.documents[LocationOf(next) := render(plans[i])]), Err(Io))
  }

  /** The repository object. */
  class PlanRepository {
    const render: Render
    var plans: seq<Plan>
    var documents: map<Location, string>

    constructor (render: Render)
      ensures this.render == render && Current() == Store([], map[])
    {
      this.render, plans, documents := render, [], map[];
    }

    function Current(): Store
      reads this
    {
      Store(plans, documents)
    }

    method Create(p: Plan, fault: CreateFault) returns (r: Result<Plan, Error>)
      modifies this
      ensures (Current(), r) == AfterCreate(old(Current()), p, render, fault)
    {
      var at := LocationOf(p);
      if fault.DocumentRefused? {
        return Err(Io);
      }
      if at in documents {
        return Err(VersionConflict);
      }
      documents := documents[at := render(p)];
      if fault.DocumentLeftBehind? {
        return Err(Io);
      }
      if !fault.StateLost? {
        plans := plans + [p];
      }
      if fault.StateLost? || fault.StateLate? {
        if fault.removed {
          documents := documents - {at};
        }
        return Err(Io);
      }
      return Ok(p);
    }

    /** Returns the new version, or the error of the step that failed; `published` remembers that the document was
        written. */
    method Update(id: string, expectedVersion: int, mutate: Plan -> Result<Plan, Error>, fault: UpdateFault)
      returns (r: Result<Plan, Error>)
      modifies this
      ensures (Current(), r) == AfterUpdate(old(Current()), id, expectedVersion, mutate, render, fault)
    {
      var published: Option<Location> := None;
      var index: nat := 0;
      if fault.readFails {
        return Err(Io);
      }
      var found := FindPlan(plans, id);
      if found.None? {
        return Err(NotFound);
      }
      index := found.value;
      var current := plans[index];
      if current.version != expectedVersion {
        return Err(VersionConflict);
      }
      var next := mutate(current);
      if next.Err? {
        return Err(next.error);
      }
      if !SameIdentity(current, next.value) {
        return Err(InvalidInput);
      }
      if fault.documentFails {
        return Err(Io);
      }
      documents := documents[LocationOf(next.value) := render(next.value)];
      published := Some(LocationOf(next.value));
      if !fault.publish.Lost? {
        plans := plans[index := next.value];
      }
      if fault.publish.Published? {
        return Ok(next.value);
      }
      if fault.rereadFails {
        return Err(Unreconciled);
      }
      var authoritative := FindPlan(plans, id);
      FindPlanAfterUpdate(old(plans), id, index, next.value);
      if fault.rewriteFails {
        return Err(Unreconciled);
      }
      documents := documents[published.value := render(plans[authoritative.value])];
      return Err(Io);
    }
  }

  /** Reading the state again finds the plan at the same place. */
  lemma {:induction false} FindPlanAfterUpdate(plans: seq<Plan>, id: string, i: nat, next: Plan)
    requires FindPlan(plans, id) == Some(i) && next.id == id
    ensures FindPlan(plans[i := next], id) == Some(i)
    decreases |plans|
  {
    if i > 0 {
      FindPlanAfterUpdate(plans[1..], id, i - 1, next);
      assert plans[i := next][1..] == plans[1..][i - 1 := next];
    }
  }

  // ----- Projection agreement -----

  /** A creation keeps the documents in agreement exactly unless the state was published, the update reported a failure
      all the same, and the removal of the document succeeded. */
  lemma CreateAgreement(s: Store, p: Plan, render: Render, fault: CreateFault)
    requires Agrees(s, render)
    ensures Agrees(AfterCreate(s, p, render, fault).0, render)
      <==> !(fault == StateLate(true) && LocationOf(p) !in s.documents)
  {
    var t := AfterCreate(s, p, render, fault).0;
    var at := LocationOf(p);
    forall i | 0 <= i < |s.plans| ensures DocumentAgrees(s, s.plans[i], render) {
    }
    if fault == StateLate(true) && at !in s.documents {
      assert t.plans[|s.plans|] == p && !DocumentAgrees(t, p, render);
    } else if at !in s.documents {
      forall i | 0 <= i < |t.plans| ensures DocumentAgrees(t, t.plans[i], render) {
        if i < |s.plans| {
          assert DocumentAgrees(s, s.plans[i], render);
        }
      }
    }
  }

  /** The failing case: the first plan ever created can be stored while its document is removed. */
  lemma CreateCanLoseDocument(p: Plan, render: Render)
    ensures var t := AfterCreate(Store([], map[]), p, render, StateLate(true)).0;
            t.plans == [p] && LocationOf(p) !in t.documents && !Agrees(t, render)
  {
    var t := AfterCreate(Store([], map[]), p, render, StateLate(true)).0;
    assert !DocumentAgrees(t, t.plans[0], render);
  }

  /** The one way an update leaves a stale document: it was written, the state was lost, it could not be rendered
      back, and the two versions render differently. */
  predicate LeavesStale(s: Store, id: string, expectedVersion: int, mutate: Plan -> Result<Plan, Error>, render: Render,
                        fault: UpdateFault)
  {
    var next := NextVersion(s, id, expectedVersion, mutate);
    !fault.readFails && next.Ok? && !fault.documentFails && fault.publish.Lost?
    && (fault.rereadFails || fault.rewriteFails)
    && next.value.0 < |s.plans| && render(next.value.1) != render(s.plans[next.value.0])
  }

  lemma UpdateAgreement(s: Store, id: string, expectedVersion: int, mutate: Plan -> Result<Plan, Error>, render: Render,
                        fault: UpdateFault)
    requires Agrees(s, render)
    ensures var (t, r) := AfterUpdate(s, id, expectedVersion, mutate, render, fault);
            (Agrees(t, render) <==> !LeavesStale(s, id, expectedVersion, mutate, render, fault))
            && (r != Err(Unreconciled) ==> Agrees(t, render))
  {
    var (t, r) := AfterUpdate(s, id, expectedVersion, mutate, render, fault);
    var found := NextVersion(s, id, expectedVersion, mutate);
    if t != s && found.Ok? {
      var (i, next) := found.value;
      assert DocumentAgrees(s, s.plans[i], render);
      forall j | 0 <= j < |s.plans| && j != i ensures DocumentAgrees(t, t.plans[j], render) {
        assert DocumentAgrees(s, s.plans[j], render);
      }
      assert forall j :: 0 <= j < |s.plans| ==> LocationOf(t.plans[j]) == LocationOf(s.plans[j]);
      assert Agrees(t, render) <==> DocumentAgrees(t, t.plans[i], render);
    }
  }

  // ----- Whole runs of the repository under the plan service -----

  datatype Action =
    | Add(plan: Plan, createFault: CreateFault)
    | Change(id: string, expectedVersion: int, op: Operation, now: int, updateFault: UpdateFault)

  function Mutator(op: Operation, now: int): Plan -> Result<Plan, Error> {
    p => Applied(p, op, now)
  }

  function Acted(s: Store, a: Action, render: Render): (Store, Result<Plan, Error>) {
    match a
    case Add(p, fault) => AfterCreate(s, p, render, fault)
    case Change(id, version, op, now, fault) =>
      if Precheck(op).Some? then (s, Err(InvalidInput))
      else AfterUpdate(s, id, version, Mutator(op, now), render, fault)
  }

  /** New plans are what the service makes: submissions and drafts. */
  ghost predicate Admissible(a: Action) {
    a.Add? ==> IsNew(a.plan)
  }

  /** The two failures that can leave a plan without its document: see CreateAgreement and UpdateAgreement. */
  predicate Harmful(s: Store, a: Action, render: Render) {
    match a
    case Add(p, fault) => fault == StateLate(true) && LocationOf(p) !in s.documents
    case Change(id, version, op, now, fault) =>
      Precheck(op).None? && LeavesStale(s, id, version, Mutator(op, now), render, fault)
  }

  function ActedAll(s: Store, actions: seq<Action>, render: Render): Store
    decreases actions
  {
    if actions == [] then s else ActedAll(Acted(s, actions[0], render).0, actions[1..], render)
  }

  ghost predicate NoneHarmful(s: Store, actions: seq<Action>, render: Render)
    decreases actions
  {
    actions == []
    || (!Harmful(s, actions[0], render) && NoneHarmful(Acted(s, actions[0], render).0, actions[1..], render))
  }

  /** Over every run, the documents agree after each action as long as no harmful failure happened. */
  lemma {:induction false} AgreementOverRuns(s: Store, actions: seq<Action>, render: Render)
    requires Agrees(s, render) && NoneHarmful(s, actions, render)
    ensures Agrees(ActedAll(s, actions, render), render)
    decreases |actions|
  {
    if actions != [] {
      match actions[0] {
        case Add(p, fault) => CreateAgreement(s, p, render, fault);
        case Change(id, version, op, now, fault) =>
          if Precheck(op).None? {
            UpdateAgreement(s, id, version, Mutator(op, now), render, fault);
          }
      }
      AgreementOverRuns(Acted(s, actions[0], render).0, actions[1..], render);
    }
  }

  ghost predicate AllHistoriesHold(plans: seq<Plan>) {
    forall i :: 0 <= i < |plans| ==> HistoryHolds(plans[i])
  }

  /** How many updates of the plan at each place the store has seen. */
  ghost predicate VersionsCount(plans: seq<Plan>, updates: seq<nat>) {
    |updates| == |plans| && forall i :: 0 <= i < |plans| ==> plans[i].version == 1 + updates[i]
  }

  /** The update counts after an action: a new plan starts at none, a changed one has one more. */
  ghost function Counted(before: seq<Plan>, updates: seq<nat>, after: seq<Plan>): (r: seq<nat>)
    requires |updates| == |before|
    ensures |r| == |after|
  {
    seq(|after|, i requires 0 <= i < |after| =>
      if i >= |before| then 0 else if after[i] == before[i] then updates[i] else updates[i] + 1)
  }

  ghost function CountedAll(s: Store, updates: seq<nat>, actions: seq<Action>, render: Render): (r: seq<nat>)
    requires |updates| == |s.plans|
    decreases actions
  {
    if actions == [] then updates
    else
      var t := Acted(s, actions[0], render).0;
      CountedAll(t, Counted(s.plans, updates, t.plans), actions[1..], render)
  }

  lemma AppendKeepsHistories(plans: seq<Plan>, p: Plan, updates: seq<nat>)
    requires AllHistoriesHold(plans) && VersionsCount(plans, updates) && IsNew(p)
    ensures AllHistoriesHold(plans + [p]) && VersionsCount(plans + [p], Counted(plans, updates, plans + [p]))
  {
  }

  lemma ChangeKeepsHistories(plans: seq<Plan>, i: nat, op: Operation, now: int, updates: seq<nat>)
    requires AllHistoriesHold(plans) && VersionsCount(plans, updates)
    requires i < |plans| && Precheck(op).None? && Applied(plans[i], op, now).Ok?
    ensures var after := plans[i := Applied(plans[i], op, now).value];
            AllHistoriesHold(after) && VersionsCount(after, Counted(plans, updates, after))
  {
    AppliedKeepsHistory(plans[i], op, now);
  }

  lemma ActedKeepsHistories(s: Store, a: Action, render: Render, updates: seq<nat>)
    requires AllHistoriesHold(s.plans) && Admissible(a) && VersionsCount(s.plans, updates)
    ensures var t := Acted(s, a, render).0;
            AllHistoriesHold(t.plans) && VersionsCount(t.plans, Counted(s.plans, updates, t.plans))
  {
    var t := Acted(s, a, render).0;
    if t.plans == s.plans {
    } else if a.Add? {
      AppendKeepsHistories(s.plans, a.plan, updates);
      assert t.plans == s.plans + [a.plan];
    } else {
      var i := ChangeApplies(s, a, render);
      ChangeKeepsHistories(s.plans, i, a.op, a.now, updates);
    }
  }

  /** A change that has an effect applies the operation to one plan. */
  lemma ChangeApplies(s: Store, a: Action, render: Render) returns (i: nat)
    requires a.Change? && Acted(s, a, render).0.plans != s.plans
    ensures i < |s.plans| && Precheck(a.op).None? && Applied(s.plans[i], a.op, a.now).Ok?
    ensures Acted(s, a, render).0.plans == s.plans[i := Applied(s.plans[i], a.op, a.now).value]
  {
    i := NextVersion(s, a.id, a.expectedVersion, Mutator(a.op, a.now)).value.0;
  }

  /** Over every run, whatever fails, each stored plan has an approval history and a version of one plus its updates. */
  lemma {:induction false} HistoriesOverRuns(s: Store, actions: seq<Action>, render: Render, updates: seq<nat>)
    requires AllHistoriesHold(s.plans) && VersionsCount(s.plans, updates) && forall a :: a in actions ==> Admissible(a)
    ensures AllHistoriesHold(ActedAll(s, actions, render).plans)
    ensures VersionsCount(ActedAll(s, actions, render).plans, CountedAll(s, updates, actions, render))
    decreases |actions|
  {
    if actions != [] {
      assert actions[0] in actions;
      ActedKeepsHistories(s, actions[0], render, updates);
      var t := Acted(s, actions[0], render).0;
      HistoriesOverRuns(t, actions[1..], render, Counted(s.plans, updates, t.plans));
    }
  }

  lemma RunsFromEmpty(actions: seq<Action>, render: Render)
    requires forall a :: a in actions ==> Admissible(a)
    ensures var end := ActedAll(Store([], map[]), actions, render);
            AllHistoriesHold(end.plans) && (NoneHarmful(Store([], map[]), actions, render) ==> Agrees(end, render))
  {
    HistoriesOverRuns(Store([], map[]), actions, render, []);
    if NoneHarmful(Store([], map[]), actions, render) {
      AgreementOverRuns(Store([], map[]), actions, render);
    }
  }
}
