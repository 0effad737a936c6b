/** The plan service (packages/dsh-luban-plan/src/service.ts): what it remembers and what its guard lets tools do. */
module PlanService {
  import opened Wrappers
  import opened Plans
  import Repo = PlanRepository

  datatype Input = Input(accountId: string, taskId: Option<string>, sessionId: Option<string>, workspace: string,
                         slug: string, sections: Sections)

  /** What the repository makes of an input: identifier and path are its own choice. */
  function NewPlan(input: Input, id: string, filePath: string, status: Status, now: int): Plan {
    Plan(id, input.accountId, input.taskId, input.sessionId, status, input.sections, filePath, [], 1,
         input.workspace, input.slug, now, now)
  }

  /** The service's memory: plans by id, and the current plan of each session. */
  datatype Memory = Memory(plans: map<string, Plan>, sessionPlans: map<string, string>)

  function Remembered(m: Memory, p: Plan): Memory {
    var plans := m.plans[p.id := p];
    if p.sessionId.None? then Memory(plans, m.sessionPlans)
    else
      var session := p.sessionId.value;
      if session in m.sessionPlans && m.sessionPlans[session] in plans
         && plans[m.sessionPlans[session]].updatedAt > p.updatedAt
      then Memory(plans, m.sessionPlans)
      else Memory(plans, m.sessionPlans[session := p.id])
  }

  /** Every session with a remembered plan has a current one, which is one of its own. */
  ghost predicate Pointed(m: Memory) {
    (forall id :: id in m.plans ==> m.plans[id].id == id)
    && (forall id :: id in m.plans && m.plans[id].sessionId.Some? ==> m.plans[id].sessionId.value in m.sessionPlans)
    && (forall s :: s in m.sessionPlans ==>
          m.sessionPlans[s] in m.plans && m.plans[m.sessionPlans[s]].sessionId == Some(s))
  }

  /** A plan of the same session was updated later. */
  ghost predicate Overtaken(m: Memory, p: Plan) {
    exists id :: IsLaterRival(m, p, id)
  }

  predicate IsLaterRival(m: Memory, p: Plan, id: string) {
    id in m.plans && id != p.id && m.plans[id].sessionId == p.sessionId && m.plans[id].updatedAt > p.updatedAt
  }

  /** Of a session's plans none was updated later than the current one. */
  ghost predicate CurrentIsLatest(m: Memory)
    requires Pointed(m)
  {
    forall s :: s in m.sessionPlans ==> !Overtaken(m, m.plans[m.sessionPlans[s]])
  }

  lemma RememberedPointed(m: Memory, p: Plan)
    requires Pointed(m) && (p.id in m.plans ==> m.plans[p.id].sessionId == p.sessionId)
    ensures Pointed(Remembered(m, p))
  {
  }

  /** The current plan of a session comes back with a time before that of another of the session's plans. */
  ghost predicate StepsBack(m: Memory, p: Plan) {
    p.sessionId.Some? && p.sessionId.value in m.sessionPlans && m.sessionPlans[p.sessionId.value] == p.id
    && Overtaken(m, p)
  }

  /** Remembering a plan keeps the current plans the latest exactly when the plan does not step back. */
  lemma RememberedIsLatestIff(m: Memory, p: Plan)
    requires Pointed(m) && CurrentIsLatest(m) && (p.id in m.plans ==> m.plans[p.id].sessionId == p.sessionId)
    ensures Pointed(Remembered(m, p)) && (CurrentIsLatest(Remembered(m, p)) <==> !StepsBack(m, p))
  {
    RememberedPointed(m, p);
    var after := Remembered(m, p);
    if StepsBack(m, p) {
      assert after.plans[after.sessionPlans[p.sessionId.value]] == p && Overtaken(after, p) by {
        var id :| IsLaterRival(m, p, id);
        assert IsLaterRival(after, p, id);
      }
    } else {
      forall s | s in after.sessionPlans ensures !Overtaken(after, after.plans[after.sessionPlans[s]]) {
        SessionStaysLatest(m, p, s);
      }
    }
  }

  lemma SessionStaysLatest(m: Memory, p: Plan, s: string)
    requires Pointed(m) && CurrentIsLatest(m) && (p.id in m.plans ==> m.plans[p.id].sessionId == p.sessionId)
    requires !StepsBack(m, p) && s in Remembered(m, p).sessionPlans
    ensures var after := Remembered(m, p);
            after.sessionPlans[s] in after.plans && !Overtaken(after, after.plans[after.sessionPlans[s]])
  {
    RememberedPointed(m, p);
    var after := Remembered(m, p);
    var current := after.plans[after.sessionPlans[s]];
    forall id ensures !IsLaterRival(after, current, id) {
      if s in m.sessionPlans {
        assert !IsLaterRival(m, m.plans[m.sessionPlans[s]], id);
      }
      if current == p && id in m.plans {
        assert IsLaterRival(m, p, id) ==> Overtaken(m, p);
      }
    }
  }

  /** Every remembered plan is a stored one, of the same account and session. */
  ghost predicate Linked(m: Memory, stored: seq<Plan>) {
    forall id :: id in m.plans ==>
      var found := Repo.FindPlan(stored, id);
      found.Some? && stored[found.value].sessionId == m.plans[id].sessionId
      && stored[found.value].accountId == m.plans[id].accountId
  }

  lemma {:induction false} FindPlanSameIds(a: seq<Plan>, b: seq<Plan>, id: string)
    requires |a| <= |b| && forall i :: 0 <= i < |a| ==> a[i].id == b[i].id
    ensures Repo.FindPlan(a, id).Some? ==> Repo.FindPlan(b, id) == Repo.FindPlan(a, id)
  {
    if a != [] {
      FindPlanSameIds(a[1..], b[1..], id);
    }
  }

  /** `b` holds later versions of the plans of `a`, and perhaps more plans. */
  ghost predicate LaterPlans(a: seq<Plan>, b: seq<Plan>) {
    |a| <= |b| && forall i :: 0 <= i < |a| ==> SameOwner(a[i], b[i])
  }

  ghost predicate SameOwner(p: Plan, q: Plan) {
    p.id == q.id && p.sessionId == q.sessionId && p.accountId == q.accountId
  }

  /** Every remembered plan has an approval history. */
  ghost predicate MemoryHolds(m: Memory) {
    forall id :: id in m.plans ==> HistoryHolds(m.plans[id])
  }

  /** Memory and store fit together. */
  ghost predicate Consistent(m: Memory, stored: seq<Plan>) {
    Repo.AllHistoriesHold(stored) && MemoryHolds(m) && Pointed(m) && Linked(m, stored)
  }

  /** Storing new versions and new plans breaks nothing. */
  lemma ConsistentLater(m: Memory, a: seq<Plan>, b: seq<Plan>)
    requires Consistent(m, a) && LaterPlans(a, b) && Repo.AllHistoriesHold(b)
    ensures Consistent(m, b)
  {
    forall id | id in m.plans ensures Repo.FindPlan(b, id) == Repo.FindPlan(a, id) {
      FindPlanSameIds(a, b, id);
    }
  }

  /** Nor does remembering a plan that is stored. */
  lemma ConsistentRemembered(m: Memory, stored: seq<Plan>, p: Plan, i: nat)
    requires Consistent(m, stored) && HistoryHolds(p) && IsStoredAs(stored, p, i)
    ensures Consistent(Remembered(m, p), stored)
  {
    RememberedPointed(m, p);
    RememberedLinked(m, stored, p, i);
    RememberedHolds(m, p);
  }

  lemma RememberedHolds(m: Memory, p: Plan)
    requires MemoryHolds(m) && HistoryHolds(p)
    ensures MemoryHolds(Remembered(m, p))
  {
    assert Remembered(m, p).plans == m.plans[p.id := p];
  }

  lemma RememberedLinked(m: Memory, stored: seq<Plan>, p: Plan, i: nat)
    requires Linked(m, stored) && IsStoredAs(stored, p, i)
    ensures Linked(Remembered(m, p), stored)
  {
    assert Remembered(m, p).plans == m.plans[p.id := p];
  }

  lemma {:induction false} FindPlanAppended(stored: seq<Plan>, p: Plan)
    requires Repo.FindPlan(stored, p.id).None?
    ensures Repo.FindPlan(stored + [p], p.id) == Some(|stored|)
  {
    if stored != [] {
      assert (stored + [p])[1..] == stored[1..] + [p];
      FindPlanAppended(stored[1..], p);
    }
  }

  /** A creation stores the plan or nothing, and only a stored plan is returned. */
  lemma CreateResult(s: Repo.Store, p: Plan, render: Repo.Render, fault: Repo.CreateFault)
    requires Repo.AllHistoriesHold(s.plans) && IsNew(p)
    ensures var (t, r) := Repo.AfterCreate(s, p, render, fault);
            Repo.AllHistoriesHold(t.plans) && LaterPlans(s.plans, t.plans)
            && (r.Ok? ==> r.value == p && t.plans == s.plans + [p])
  {
  }

  ghost predicate IsStoredAs(stored: seq<Plan>, p: Plan, i: nat) {
    i < |stored| && stored[i] == p && Repo.FindPlan(stored, p.id) == Some(i)
  }

  /** An update stores one new version or nothing, and only a stored version is returned. */
  lemma UpdateShape(s: Repo.Store, id: string, expectedVersion: int, op: Operation, now: int, render: Repo.Render,
                    fault: Repo.UpdateFault) returns (i: nat)
    ensures var (t, r) := Repo.AfterUpdate(s, id, expectedVersion, Repo.Mutator(op, now), render, fault);
            (t.plans == s.plans && r.Err?)
            || (Repo.FindPlan(s.plans, id) == Some(i) && i < |s.plans| && s.plans[i].version == expectedVersion
                && Applied(s.plans[i], op, now).Ok?
                && t.plans == s.plans[i := Applied(s.plans[i], op, now).value]
                && (r.Ok? ==> r.value == t.plans[i]))
  {
    var next := Repo.NextVersion(s, id, expectedVersion, Repo.Mutator(op, now));
    i := if next.Ok? then next.value.0 else 0;
  }

  /** One new version in the store. */
  lemma VersionStored(plans: seq<Plan>, id: string, i: nat, op: Operation, now: int)
    requires Repo.AllHistoriesHold(plans) && Precheck(op).None? && Repo.FindPlan(plans, id) == Some(i) && i < |plans|
    requires Applied(plans[i], op, now).Ok?
    ensures var p := Applied(plans[i], op, now).value;
            Repo.AllHistoriesHold(plans[i := p]) && LaterPlans(plans, plans[i := p])
            && IsStoredAs(plans[i := p], p, i) && IsUpdate(p, id, plans[i].version, now)
  {
    AppliedKeepsHistory(plans[i], op, now);
    AppliedKeepsOwner(plans[i], op, now);
    Repo.FindPlanAfterUpdate(plans, id, i, Applied(plans[i], op, now).value);
  }

  /** What an update leaves in the store, and what it returns when it succeeds. */
  lemma UpdateResult(s: Repo.Store, id: string, expectedVersion: int, op: Operation, now: int, render: Repo.Render,
                     fault: Repo.UpdateFault) returns (i: nat)
    requires Precheck(op).None? && Repo.AllHistoriesHold(s.plans)
    ensures var (t, r) := Repo.AfterUpdate(s, id, expectedVersion, Repo.Mutator(op, now), render, fault);
            Repo.AllHistoriesHold(t.plans) && LaterPlans(s.plans, t.plans)
            && (r.Ok? ==> IsStoredAs(t.plans, r.value, i) && IsUpdate(r.value, id, expectedVersion, now))
  {
    i := UpdateShape(s, id, expectedVersion, op, now, render, fault);
    var t := Repo.AfterUpdate(s, id, expectedVersion, Repo.Mutator(op, now), render, fault).0;
    if t.plans != s.plans {
      VersionStored(s.plans, id, i, op, now);
    }
  }

  ghost predicate IsUpdate(p: Plan, id: string, expectedVersion: int, now: int) {
    HistoryHolds(p) && p.id == id && p.version == expectedVersion + 1 && p.updatedAt == now
  }

  lemma AppliedKeepsOwner(p: Plan, op: Operation, now: int)
    requires Applied(p, op, now).Ok?
    ensures var q := Applied(p, op, now).value; SameOwner(p, q) && q.updatedAt == now && q.version == p.version + 1
  {
  }

  // ----- One request -----

  /** Memory and store together. */
  datatype World = World(memory: Memory, store: Repo.Store)

  /** A submission or draft, with the identifier, path and time it would get; or a change of a plan. Sessions and tasks
      are looked up elsewhere: who owns a session, and, if there is a task store, whose task it is. */
  datatype Request =
    | Make(input: Input, asDraft: bool, ownerOf: string -> Option<string>, tasks: Option<string -> Option<string>>,
           newId: string, filePath: string, now: int, createFault: Repo.CreateFault)
    | Alter(id: string, op: Operation, expectedVersion: int, ownerOf: string -> Option<string>, now: int,
            updateFault: Repo.UpdateFault)

  function MadePlan(request: Request): Plan
    requires request.Make?
  {
    NewPlan(request.input, request.newId, request.filePath, if request.asDraft then Draft else InReview, request.now)
  }

  /** Why a request is refused before the repository is asked. */
  function Refusal(m: Memory, request: Request): Option<Error> {
    match request
    case Make(input, asDraft, ownerOf, tasks, _, _, _, _) =>
      if !asDraft && !ValidSections(input.sections) then Some(InvalidInput)
      else if input.sessionId.Some? && ownerOf(input.sessionId.value) != Some(input.accountId) then Some(ScopeMismatch)
      else if input.taskId.Some? && tasks.None? then Some(Unavailable)
      else if input.taskId.Some? && tasks.value(input.taskId.value) != Some(input.accountId) then Some(NotFound)
      else None
    case Alter(id, op, _, ownerOf, _, _) =>
      if Precheck(op).Some? then Precheck(op)
      else if id !in m.plans || m.plans[id].accountId != Requester(op) then Some(NotFound)
      else if m.plans[id].sessionId.Some? && ownerOf(m.plans[id].sessionId.value) != Some(Requester(op))
      then Some(ScopeMismatch)
      else None
  }

  /** What the repository makes of a request. */
  function Stored(s: Repo.Store, request: Request, render: Repo.Render): (Repo.Store, Result<Plan, Error>) {
    match request
    case Make(_, _, _, _, _, _, _, fault) => Repo.AfterCreate(s, MadePlan(request), render, fault)
    case Alter(id, op, version, _, now, fault) => Repo.AfterUpdate(s, id, version, Repo.Mutator(op, now), render, fault)
  }

  /** One request: the service remembers what the repository returns, and nothing else. */
  function Served(w: World, request: Request, render: Repo.Render): (World, Result<Plan, Error>) {
    var refusal := Refusal(w.memory, request);
    if refusal.Some? then (w, Err(refusal.value))
    else
      var (store, r) := Stored(w.store, request, render);
      (World(if r.Ok? then Remembered(w.memory, r.value) else w.memory, store), r)
  }

  /** A request that the repository was asked about. */
  lemma ServedWhenStored(w: World, request: Request, render: Repo.Render, memory: Memory, store: Repo.Store,
                         r: Result<Plan, Error>)
    requires Refusal(w.memory, request).None? && (store, r) == Stored(w.store, request, render)
    requires memory == if r.Ok? then Remembered(w.memory, r.value) else w.memory
    ensures Served(w, request, render) == (World(memory, store), r)
  {
  }

  /** The identifier of a new plan is random and therefore new. */
  predicate HasNewId(w: World, request: Request) {
    request.Make? ==> Repo.FindPlan(w.store.plans, request.newId).None?
  }

  /** What every request keeps, whatever the clock says and whatever fails. */
  lemma ServedIsConsistent(w: World, request: Request, render: Repo.Render)
    requires Consistent(w.memory, w.store.plans) && HasNewId(w, request)
    ensures var (v, r) := Served(w, request, render);
            Consistent(v.memory, v.store.plans) && (r.Ok? ==> SameSession(w.memory, r.value))
  {
    if Refusal(w.memory, request).None? {
      var (store, r) := Stored(w.store, request, render);
      var i := StoredShape(w, request, render);
      ConsistentLater(w.memory, w.store.plans, store.plans);
      if r.Ok? {
        StoredSession(w.memory, store.plans, r.value, i);
        ConsistentRemembered(w.memory, store.plans, r.value, i);
      }
    }
  }

  ghost predicate SameSession(m: Memory, p: Plan) {
    p.id in m.plans ==> m.plans[p.id].sessionId == p.sessionId
  }

  lemma StoredSession(m: Memory, stored: seq<Plan>, p: Plan, i: nat)
    requires Linked(m, stored) && IsStoredAs(stored, p, i)
    ensures SameSession(m, p)
  {
  }

  lemma StoredShape(w: World, request: Request, render: Repo.Render) returns (i: nat)
    requires Consistent(w.memory, w.store.plans) && HasNewId(w, request) && Refusal(w.memory, request).None?
    ensures var (store, r) := Stored(w.store, request, render);
            Repo.AllHistoriesHold(store.plans) && LaterPlans(w.store.plans, store.plans)
            && (r.Ok? ==> HistoryHolds(r.value) && IsStoredAs(store.plans, r.value, i))
  {
    match request
    case Make(_, _, _, _, _, _, _, fault) =>
      i := |w.store.plans|;
      CreateResult(w.store, MadePlan(request), render, fault);
      FindPlanAppended(w.store.plans, MadePlan(request));
    case Alter(id, op, version, _, now, fault) =>
      i := UpdateResult(w.store, id, version, op, now, render, fault);
  }

  /** A change that succeeds returns a new version of its plan. */
  lemma AlterReturnsUpdate(w: World, request: Request, render: Repo.Render)
    requires Consistent(w.memory, w.store.plans) && request.Alter?
    ensures var r := Served(w, request, render).1;
            r.Ok? ==> IsUpdate(r.value, request.id, request.expectedVersion, request.now)
  {
    if Refusal(w.memory, request).None? {
      var i := UpdateResult(w.store, request.id, request.expectedVersion, request.op, request.now, render,
                            request.updateFault);
    }
  }

  // ----- When memory and store are the same -----

  /** The plan is stored, and what is remembered of it is what is stored. */
  ghost predicate Fresh(w: World, id: string) {
    var found := Repo.FindPlan(w.store.plans, id);
    found.Some? && id in w.memory.plans && w.memory.plans[id] == w.store.plans[found.value]
  }

  /** The state is published although the repository reports a failure. */
  predicate PublishedLate(w: World, request: Request, render: Repo.Render) {
    Refusal(w.memory, request).None?
    && match request
       case Make(_, _, _, _, _, _, _, fault) =>
         fault.StateLate? && Repo.LocationOf(MadePlan(request)) !in w.store.documents
       case Alter(id, op, version, _, now, fault) =>
         !fault.readFails && !fault.documentFails && fault.publish.Late?
         && Repo.NextVersion(w.store, id, version, Repo.Mutator(op, now)).Ok?
  }

  function PlanOf(request: Request): string {
    if request.Make? then request.newId else request.id
  }

  /** The plans with a late publication since they were last remembered. */
  function StaleAfter(w: World, request: Request, render: Repo.Render, stale: set<string>): set<string> {
    if PublishedLate(w, request, render) then stale + {PlanOf(request)}
    else if Served(w, request, render).1.Ok? then stale - {PlanOf(request)}
    else stale
  }

  /** The stored plans that are not stale are remembered as they are stored; of the others an older version, if any. */
  ghost predicate Tracked(w: World, stale: set<string>) {
    forall id :: Repo.FindPlan(w.store.plans, id).Some? ==> IsTracked(w, id, id in stale)
  }

  ghost predicate IsTracked(w: World, id: string, isStale: bool) {
    var found := Repo.FindPlan(w.store.plans, id);
    found.Some?
    && if isStale then id in w.memory.plans ==> w.memory.plans[id].version < w.store.plans[found.value].version
       else Fresh(w, id)
  }

  /** A request for another plan. */
  lemma OthersStayTracked(w: World, v: World, id: string, isStale: bool)
    requires IsTracked(w, id, isStale) && Repo.FindPlan(v.store.plans, id) == Repo.FindPlan(w.store.plans, id)
    requires var i := Repo.FindPlan(w.store.plans, id).value; v.store.plans[i] == w.store.plans[i]
    requires (id in v.memory.plans <==> id in w.memory.plans)
    requires id in v.memory.plans ==> v.memory.plans[id] == w.memory.plans[id]
    ensures IsTracked(v, id, isStale)
  {
  }

  /** After a new plan was stored, remembered or not. */
  lemma MadeIsTracked(w: World, v: World, p: Plan, stale: set<string>, isStale: bool)
    requires Tracked(w, stale) && Repo.FindPlan(w.store.plans, p.id).None? && p.id !in w.memory.plans
    requires v.store.plans == w.store.plans + [p]
    requires v.memory.plans == if isStale then w.memory.plans else w.memory.plans[p.id := p]
    ensures Tracked(v, if isStale then stale + {p.id} else stale - {p.id})
  {
    FindPlanAppended(w.store.plans, p);
    forall id | Repo.FindPlan(v.store.plans, id).Some? && id != p.id ensures IsTracked(v, id, id in stale) {
      FindPlanSameIds(w.store.plans, v.store.plans, id);
      OthersStayTracked(w, v, id, id in stale);
    }
  }

  /** After a new version was stored, remembered or not. */
  lemma AlteredIsTracked(w: World, v: World, i: nat, p: Plan, stale: set<string>, isStale: bool)
    requires Tracked(w, stale) && Repo.FindPlan(w.store.plans, p.id) == Some(i)
    requires v.store.plans == w.store.plans[i := p] && p.version == w.store.plans[i].version + 1
    requires v.memory.plans == if isStale then w.memory.plans else w.memory.plans[p.id := p]
    ensures Tracked(v, if isStale then stale + {p.id} else stale - {p.id})
  {
    Repo.FindPlanAfterUpdate(w.store.plans, p.id, i, p);
    assert IsTracked(w, p.id, p.id in stale);
    forall id | Repo.FindPlan(v.store.plans, id).Some? && id != p.id ensures IsTracked(v, id, id in stale) {
      FindPlanSameIds(v.store.plans, w.store.plans, id);
      OthersStayTracked(w, v, id, id in stale);
    }
  }

  /** Every remembered plan is stored; needed so that a new identifier is new to the memory too. */
  ghost predicate MemoryIsStored(w: World) {
    forall id :: id in w.memory.plans ==> Repo.FindPlan(w.store.plans, id).Some?
  }

  /** A creation stores the plan, and remembers it unless it is late; or it changes nothing. */
  lemma MakeShape(w: World, request: Request, render: Repo.Render)
    requires request.Make?
    ensures var ((v, r), p, late) := (Served(w, request, render), MadePlan(request), PublishedLate(w, request, render));
            if v.store.plans == w.store.plans then !late && r.Err? && v.memory == w.memory
            else
              v.store.plans == w.store.plans + [p] && (late <==> r.Err?)
              && v.memory.plans == if late then w.memory.plans else w.memory.plans[p.id := p]
  {
    assert |w.store.plans + [MadePlan(request)]| == |w.store.plans| + 1;
  }

  lemma MakeIsTracked(w: World, request: Request, render: Repo.Render, stale: set<string>)
    requires Tracked(w, stale) && MemoryIsStored(w) && HasNewId(w, request) && request.Make?
    ensures Tracked(Served(w, request, render).0, StaleAfter(w, request, render, stale))
    ensures MemoryIsStored(Served(w, request, render).0)
  {
    var v := Served(w, request, render).0;
    var p := MadePlan(request);
    MakeShape(w, request, render);
    if v.store.plans == w.store.plans {
      SameStoreIsTracked(w, v, stale);
    } else {
      MadeIsTracked(w, v, p, stale, PublishedLate(w, request, render));
      MadeIsStored(w, v, p);
    }
  }

  lemma MadeIsStored(w: World, v: World, p: Plan)
    requires MemoryIsStored(w) && Repo.FindPlan(w.store.plans, p.id).None? && v.store.plans == w.store.plans + [p]
    requires v.memory.plans.Keys <= w.memory.plans.Keys + {p.id}
    ensures MemoryIsStored(v)
  {
    StoredStay(w, v);
    FindPlanAppended(w.store.plans, p);
  }

  lemma SameStoreIsTracked(w: World, v: World, stale: set<string>)
    requires Tracked(w, stale) && v.store.plans == w.store.plans && v.memory.plans == w.memory.plans
    ensures Tracked(v, stale)
  {
    forall id | Repo.FindPlan(v.store.plans, id).Some? ensures IsTracked(v, id, id in stale) {
      OthersStayTracked(w, v, id, id in stale);
    }
  }

  lemma StoredStay(w: World, v: World)
    requires |w.store.plans| <= |v.store.plans|
    requires forall i :: 0 <= i < |w.store.plans| ==> w.store.plans[i].id == v.store.plans[i].id
    ensures forall id :: Repo.FindPlan(w.store.plans, id).Some? ==> Repo.FindPlan(v.store.plans, id).Some?
  {
    forall id | Repo.FindPlan(w.store.plans, id).Some? ensures Repo.FindPlan(v.store.plans, id).Some? {
      FindPlanSameIds(w.store.plans, v.store.plans, id);
    }
  }

  lemma AlterIsTracked(w: World, request: Request, render: Repo.Render, stale: set<string>)
    requires Tracked(w, stale) && MemoryIsStored(w) && request.Alter?
    ensures Tracked(Served(w, request, render).0, StaleAfter(w, request, render, stale))
    ensures MemoryIsStored(Served(w, request, render).0)
  {
    var (v, r) := Served(w, request, render);
    var next := Repo.NextVersion(w.store, request.id, request.expectedVersion, Repo.Mutator(request.op, request.now));
    if Refusal(w.memory, request).Some? || next.Err? || v.store.plans == w.store.plans {
      NothingIsStale(w, request, render);
      SameStoreIsTracked(w, v, stale);
    } else {
      var (i, p) := next.value;
      assert p.id == request.id && v.store.plans == w.store.plans[i := p];
      AlteredIsTracked(w, v, i, p, stale, r.Err?);
      StoredStay(w, v);
    }
  }

  /** A change that stores nothing is neither late nor successful. */
  lemma NothingIsStale(w: World, request: Request, render: Repo.Render)
    requires request.Alter? && Served(w, request, render).0.store.plans == w.store.plans
    ensures !PublishedLate(w, request, render) && Served(w, request, render).1.Err?
  {
    var next := Repo.NextVersion(w.store, request.id, request.expectedVersion, Repo.Mutator(request.op, request.now));
    if next.Ok? {
      var (i, p) := next.value;
      assert p.version == w.store.plans[i].version + 1;
      assert w.store.plans[i := p][i] == p;
    }
  }

  function ServedAll(w: World, requests: seq<Request>, render: Repo.Render): World
    decreases |requests|
  {
    if requests == [] then w else ServedAll(Served(w, requests[0], render).0, requests[1..], render)
  }

  function StaleAll(w: World, requests: seq<Request>, render: Repo.Render, stale: set<string>): set<string>
    decreases |requests|
  {
    if requests == [] then stale
    else StaleAll(Served(w, requests[0], render).0, requests[1..], render, StaleAfter(w, requests[0], render, stale))
  }

  predicate HaveNewIds(w: World, requests: seq<Request>, render: Repo.Render)
    decreases |requests|
  {
    requests == []
    || (HasNewId(w, requests[0]) && HaveNewIds(Served(w, requests[0], render).0, requests[1..], render))
  }

  lemma {:induction false} RunIsTracked(w: World, requests: seq<Request>, render: Repo.Render, stale: set<string>)
    requires Tracked(w, stale) && MemoryIsStored(w) && HaveNewIds(w, requests, render)
    ensures Tracked(ServedAll(w, requests, render), StaleAll(w, requests, render, stale))
    decreases |requests|
  {
    if requests != [] {
      if requests[0].Make? {
        MakeIsTracked(w, requests[0], render, stale);
      } else {
        AlterIsTracked(w, requests[0], render, stale);
      }
      RunIsTracked(Served(w, requests[0], render).0, requests[1..], render, StaleAfter(w, requests[0], render, stale));
    }
  }

  const NEW_WORLD := World(Memory(map[], map[]), Repo.Store([], map[]))

  /** Over every run, whatever fails, a stored plan is remembered as it is stored exactly when no late publication
      happened to it since it was last remembered. */
  lemma FreshIffNotLate(requests: seq<Request>, render: Repo.Render, id: string)
    requires HaveNewIds(NEW_WORLD, requests, render)
    requires Repo.FindPlan(ServedAll(NEW_WORLD, requests, render).store.plans, id).Some?
    ensures Fresh(ServedAll(NEW_WORLD, requests, render), id) <==> id !in StaleAll(NEW_WORLD, requests, render, {})
  {
    RunIsTracked(NEW_WORLD, requests, render, {});
    assert IsTracked(ServedAll(NEW_WORLD, requests, render), id, id in StaleAll(NEW_WORLD, requests, render, {}));
  }

  /** The failing case: an executing plan is completed, and the completion is published late. The request fails, and the
      plan is completed on disk, while the guard, which asks the memory, goes on letting protected tools run. */
  lemma LateCompletionLetsToolsRun(w: World, id: string, ownerOf: string -> Option<string>, now: int,
                                   render: Repo.Render, tool: string, protects: string -> bool,
                                   exempts: string -> bool) returns (request: Request)
    requires Fresh(w, id) && w.memory.plans[id].status.Executing? && protects(tool) && !exempts(tool)
    requires w.memory.plans[id].sessionId.Some?
      ==> ownerOf(w.memory.plans[id].sessionId.value) == Some(w.memory.plans[id].accountId)
    ensures var ((v, r), found) := (Served(w, request, render), Repo.FindPlan(w.store.plans, id));
            r.Err? && v.memory == w.memory && |v.store.plans| == |w.store.plans|
            && v.store.plans[found.value].id == id && v.store.plans[found.value].status.Completed?
            && AssertExecutable(tool, Some(v.memory.plans[id]), protects, exempts)
            && !AssertExecutable(tool, Some(v.store.plans[found.value]), protects, exempts)
  {
    var p := w.memory.plans[id];
    request := Alter(id, Transition(Completed, p.accountId), p.version, ownerOf, now,
                     Repo.UpdateFault(false, false, Repo.Late, false, false));
    assert Applied(p, request.op, now).Ok?;
  }

  // ----- When the current plan of a session is its latest -----

  /** The request gives the current plan of its session a time before that of another of its plans. */
  ghost predicate RequestStepsBack(w: World, request: Request, render: Repo.Render) {
    var r := Served(w, request, render).1;
    r.Ok? && StepsBack(w.memory, r.value)
  }

  lemma ServedIsLatestIff(w: World, request: Request, render: Repo.Render)
    requires Consistent(w.memory, w.store.plans) && HasNewId(w, request) && CurrentIsLatest(w.memory)
    ensures var v := Served(w, request, render).0;
            Consistent(v.memory, v.store.plans)
            && (CurrentIsLatest(v.memory) <==> !RequestStepsBack(w, request, render))
  {
    ServedIsConsistent(w, request, render);
    var r := Served(w, request, render).1;
    if r.Ok? {
      RememberedIsLatestIff(w.memory, r.value);
    }
  }

  /** In every state of the run. */
  ghost predicate LatestThroughout(w: World, requests: seq<Request>, render: Repo.Render)
    decreases |requests|
  {
    Pointed(w.memory) && CurrentIsLatest(w.memory)
    && (requests == [] || LatestThroughout(Served(w, requests[0], render).0, requests[1..], render))
  }

  ghost predicate NoneStepsBack(w: World, requests: seq<Request>, render: Repo.Render)
    decreases |requests|
  {
    requests == []
    || (!RequestStepsBack(w, requests[0], render)
        && NoneStepsBack(Served(w, requests[0], render).0, requests[1..], render))
  }

  lemma {:induction false} RunIsLatestIff(w: World, requests: seq<Request>, render: Repo.Render)
    requires Consistent(w.memory, w.store.plans) && CurrentIsLatest(w.memory) && HaveNewIds(w, requests, render)
    ensures LatestThroughout(w, requests, render) <==> NoneStepsBack(w, requests, render)
    decreases |requests|
  {
    if requests != [] {
      ServedIsLatestIff(w, requests[0], render);
      if !RequestStepsBack(w, requests[0], render) {
        RunIsLatestIff(Served(w, requests[0], render).0, requests[1..], render);
      }
    }
  }

  /** The clock never reads less than at an earlier request, nor than `from`. */
  predicate ClockGoesOn(requests: seq<Request>, from: int)
    decreases |requests|
  {
    requests == [] || (from <= requests[0].now && ClockGoesOn(requests[1..], requests[0].now))
  }

  ghost predicate UpdatedBy(m: Memory, latest: int) {
    forall id :: id in m.plans ==> m.plans[id].updatedAt <= latest
  }

  lemma ServedIsUpdatedBy(w: World, request: Request, render: Repo.Render, latest: int)
    requires Consistent(w.memory, w.store.plans) && HasNewId(w, request)
    requires UpdatedBy(w.memory, latest) && latest <= request.now
    ensures !RequestStepsBack(w, request, render) && UpdatedBy(Served(w, request, render).0.memory, request.now)
  {
    var r := Served(w, request, render).1;
    if r.Ok? {
      ReturnedIsUpdated(w, request, render);
      assert Remembered(w.memory, r.value).plans == w.memory.plans[r.value.id := r.value];
    }
  }

  lemma ReturnedIsUpdated(w: World, request: Request, render: Repo.Render)
    requires Consistent(w.memory, w.store.plans) && Served(w, request, render).1.Ok?
    ensures Served(w, request, render).1.value.updatedAt == request.now
  {
    if request.Make? {
      CreateResult(w.store, MadePlan(request), render, request.createFault);
    } else {
      AlterReturnsUpdate(w, request, render);
    }
  }

  lemma {:induction false} GoingOnStepsNotBack(w: World, requests: seq<Request>, render: Repo.Render, latest: int)
    requires Consistent(w.memory, w.store.plans) && HaveNewIds(w, requests, render)
    requires UpdatedBy(w.memory, latest) && ClockGoesOn(requests, latest)
    ensures NoneStepsBack(w, requests, render)
    decreases |requests|
  {
    if requests != [] {
      ServedIsConsistent(w, requests[0], render);
      ServedIsUpdatedBy(w, requests[0], render, latest);
      GoingOnStepsNotBack(Served(w, requests[0], render).0, requests[1..], render, requests[0].now);
    }
  }

  /** Over every run the current plan of a session stays its latest exactly when no request steps back; with a clock
      that goes on, none does. */
  lemma CurrentStaysLatestIff(requests: seq<Request>, render: Repo.Render)
    requires HaveNewIds(NEW_WORLD, requests, render)
    ensures LatestThroughout(NEW_WORLD, requests, render) <==> NoneStepsBack(NEW_WORLD, requests, render)
    ensures requests != [] && ClockGoesOn(requests, requests[0].now) ==> NoneStepsBack(NEW_WORLD, requests, render)
  {
    RunIsLatestIff(NEW_WORLD, requests, render);
    if requests != [] && ClockGoesOn(requests, requests[0].now) {
      GoingOnStepsNotBack(NEW_WORLD, requests, render, requests[0].now);
    }
  }

  /** The failing case: of two plans of a session the newer is changed while the clock reads less than when the older
      one was made. It stays the session's plan, though the older one has the later time. */
  lemma ClockBackLosesLatest(older: Plan, newer: Plan, op: Operation)
    requires older.sessionId.Some? && newer.sessionId == older.sessionId && newer.id != older.id
    requires older.updatedAt <= newer.updatedAt && Applied(newer, op, older.updatedAt - 1).Ok?
    ensures var m := Remembered(Remembered(Memory(map[], map[]), older), newer);
            var changed := Applied(newer, op, older.updatedAt - 1).value;
            Pointed(m) && CurrentIsLatest(m) && StepsBack(m, changed)
            && Pointed(Remembered(m, changed)) && !CurrentIsLatest(Remembered(m, changed))
  {
    var empty := Memory(map[], map[]);
    RememberedIsLatestIff(empty, older);
    var one := Remembered(empty, older);
    RememberedIsLatestIff(one, newer);
    var m := Remembered(one, newer);
    AppliedKeepsOwner(newer, op, older.updatedAt - 1);
    var changed := Applied(newer, op, older.updatedAt - 1).value;
    assert IsLaterRival(m, changed, older.id);
    RememberedIsLatestIff(m, changed);
  }

  class FilePlanService {
    const repository: Repo.PlanRepository
    const protects: string -> bool
    const exempts: string -> bool
    var plans: map<string, Plan>
    var sessionPlans: map<string, string>

    constructor (repository: Repo.PlanRepository, protects: string -> bool, exempts: string -> bool)
      requires repository.plans == []
      ensures this.repository == repository && this.protects == protects && this.exempts == exempts
      ensures Valid()
    {
      this.repository, this.protects, this.exempts := repository, protects, exempts;
      plans, sessionPlans := map[], map[];
    }

    ghost function Current(): Memory
      reads this
    {
      Memory(plans, sessionPlans)
    }

    ghost predicate Valid()
      reads this, repository
    {
      Consistent(Current(), repository.plans)
    }

    method Remember(p: Plan)
      modifies this`plans, this`sessionPlans
      ensures Current() == Remembered(old(Current()), p)
    {
      plans := plans[p.id := p];
      if p.sessionId.Some? {
        var session := p.sessionId.value;
        if session !in sessionPlans || sessionPlans[session] !in plans
           || plans[sessionPlans[session]].updatedAt <= p.updatedAt {
          sessionPlans := sessionPlans[session := p.id];
        }
      }
    }

    ghost function CurrentWorld(): World
      reads this, repository
    {
      World(Current(), repository.Current())
    }

    /** `submit` and `saveDraft`; the identifier is random and therefore new. */
    method Create(input: Input, asDraft: bool, ownerOf: string -> Option<string>,
                  tasks: Option<string -> Option<string>>, id: string, filePath: string, now: int,
                  fault: Repo.CreateFault) returns (r: Result<Plan, Error>)
      requires Valid() && Repo.FindPlan(repository.plans, id).None?
      modifies this, repository
      ensures Valid()
      ensures (CurrentWorld(), r)
           == Served(old(CurrentWorld()), Make(input, asDraft, ownerOf, tasks, id, filePath, now, fault),
                     repository.render)
      ensures r.Ok? ==> IsNew(r.value)
    {
      ghost var w := CurrentWorld();
      ghost var request := Make(input, asDraft, ownerOf, tasks, id, filePath, now, fault);
      if !asDraft && !ValidSections(input.sections) {
        return Err(InvalidInput);
      }
      if input.sessionId.Some? && ownerOf(input.sessionId.value) != Some(input.accountId) {
        return Err(ScopeMismatch);
      }
      if input.taskId.Some? && tasks.None? {
        return Err(Unavailable);
      }
      if input.taskId.Some? && tasks.value(input.taskId.value) != Some(input.accountId) {
        return Err(NotFound);
      }
      var p := NewPlan(input, id, filePath, if asDraft then Draft else InReview, now);
      CreateResult(repository.Current(), p, repository.render, fault);
      r := repository.Create(p, fault);
      if r.Ok? {
        Remember(p);
      }
      ServedWhenStored(w, request, repository.render, Current(), repository.Current(), r);
      assert Valid() by {
        ServedIsConsistent(w, request, repository.render);
      }
    }

    /** `decide`, `transition` and `revise`. */
    method Change(id: string, op: Operation, expectedVersion: int, ownerOf: string -> Option<string>, now: int,
                  fault: Repo.UpdateFault) returns (r: Result<Plan, Error>)
      requires Valid()
      modifies this, repository
      ensures Valid()
      ensures (CurrentWorld(), r)
           == Served(old(CurrentWorld()), Alter(id, op, expectedVersion, ownerOf, now, fault), repository.render)
      ensures r.Ok? ==> IsUpdate(r.value, id, expectedVersion, now)
    {
      ghost var w := CurrentWorld();
      ghost var request := Alter(id, op, expectedVersion, ownerOf, now, fault);
      var invalid := Precheck(op);
      if invalid.Some? {
        return Err(invalid.value);
      }
      if id !in plans || plans[id].accountId != Requester(op) {
        return Err(NotFound);
      }
      if plans[id].sessionId.Some? && ownerOf(plans[id].sessionId.value) != Some(Requester(op)) {
        return Err(ScopeMismatch);
      }
      r := StoreChange(id, op, expectedVersion, now, fault);
      ServedWhenStored(w, request, repository.render, Current(), repository.Current(), r);
      ServedIsConsistent(w, request, repository.render);
      AlterReturnsUpdate(w, request, repository.render);
    }

    /** The repository makes the change, and the service remembers what it returns. */
    method StoreChange(id: string, op: Operation, expectedVersion: int, now: int, fault: Repo.UpdateFault)
      returns (r: Result<Plan, Error>)
      modifies this, repository
      ensures (repository.Current(), r)
           == Repo.AfterUpdate(old(repository.Current()), id, expectedVersion, Repo.Mutator(op, now),
                               repository.render, fault)
      ensures Current() == if r.Ok? then Remembered(old(Current()), r.value) else old(Current())
    {
      r := repository.Update(id, expectedVersion, Repo.Mutator(op, now), fault);
      if r.Ok? {
        Remember(r.value);
      }
    }

    /** What the tool guard of a session answers: a protected tool needs the session's latest plan to be approved and
        not completed. */
    method GuardTool(tool: string, sessionId: string) returns (ok: bool)
      requires Valid()
      ensures ok <==> exempts(tool) || !protects(tool) || exists id :: id in plans && LetsRun(id, sessionId)
    {
      var plan := if sessionId in sessionPlans then Some(plans[sessionPlans[sessionId]]) else None;
      ok := AssertExecutable(tool, plan, protects, exempts);
      if protects(tool) && !exempts(tool) {
        GuardNeedsApproval(tool, plan, protects, exempts);
        if sessionId in sessionPlans {
          var id := sessionPlans[sessionId];
          assert ok <==> LetsRun(id, sessionId);
          forall other | other in plans && LetsRun(other, sessionId) ensures ok {
            assert LetsRun(other, sessionId) ==> other == id;
          }
        }
      }
    }

    /** The plan is current for the session, and its last decision approves it. */
    ghost predicate LetsRun(id: string, sessionId: string)
      requires id in plans
      reads this
    {
      sessionId in sessionPlans && sessionPlans[sessionId] == id
      && EndsInApproval(plans[id].decisions) && !plans[id].status.Completed?
    }
  }
}
