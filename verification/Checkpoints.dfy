/** Checkpointed execution of a step plan (packages/dsh-luban-keepalive/src/checkpoint-runner.ts, ledger.ts). */
module Checkpoints {
  import opened Wrappers
  import opened Text

  const MAX_STEPS := 256
  const MAX_ARTIFACTS := 4096

  datatype Checkpoint = Checkpoint(accountId: Option<string>, taskId: string, stepList: seq<string>,
                                   currentStep: nat, artifacts: seq<string>)

  datatype Error = InvalidPlan | Incompatible | Aborted | StepFailed | InvalidArtifacts | NotFound | NotOwned
                 | OtherAccount | Inconsistent | SaveFailed | Crashed

  /** What a step returns: nothing, new artifacts, or a rejection. */
  datatype Produced = Nothing | Artifacts(paths: seq<string>) | Rejected

  /** A step is deterministic: what it produces depends on the artifacts it is given. */
  datatype PlanStep = PlanStep(id: string, run: seq<string> -> Produced)

  datatype Options = Options(taskId: string, accountId: Option<string>, steps: seq<PlanStep>)

  // ----- Checks -----

  function Ids(steps: seq<PlanStep>): seq<string> {
    seq(|steps|, i requires 0 <= i < |steps| => Trim(steps[i].id))
  }

  predicate ValidPlan(steps: seq<PlanStep>) {
    var ids := Ids(steps);
    0 < |ids| <= MAX_STEPS
    && (forall id :: id in ids ==> id != "" && |id| <= 256 && '\0' !in id)
    && (forall i, j :: 0 <= i < j < |ids| ==> ids[i] != ids[j])
  }

  predicate Compatible(checkpoint: Checkpoint, options: Options) {
    (options.accountId.None? || checkpoint.accountId == options.accountId)
    && checkpoint.taskId == options.taskId && checkpoint.stepList == Ids(options.steps)
  }

  predicate ValidArtifact(path: string) {
    path != "" && |path| <= 4096 && '\0' !in path
  }

  /** The artifact list after a step; None when the step's artifacts are refused. */
  function MergeArtifacts(current: seq<string>, produced: Produced): Option<seq<string>> {
    match produced
    case Nothing => Some(current)
    case Rejected => None
    case Artifacts(paths) =>
      var merged := Dedupe(current + paths);
      if (forall p :: p in paths ==> ValidArtifact(p)) && |merged| <= MAX_ARTIFACTS then Some(merged) else None
  }

  // ----- One attempt -----

  /** Where an attempt is interrupted: before a step runs, between its run and its save, or while saving, with the
      checkpoint lost or already durable. */
  datatype Fault =
    NoFault | AbortBefore(step: nat) | CrashAfterRun(step: nat) | SaveLost(step: nat) | SaveKept(step: nat)

  /** The session's record in the ledger: whether there is one, the account and task that own it, and whether its key,
      specification and session fit together. */
  datatype Owner = Owner(known: bool, accountId: Option<string>, taskId: Option<string>, consistent: bool)

  /** The ledger saves a checkpoint for its owner only, and under the owner's account. */
  function Scoped(owner: Owner, c: Checkpoint): Result<Checkpoint, Error> {
    if !owner.known then Err(NotFound)
    else if owner.taskId != Some(c.taskId) then Err(NotOwned)
    else if c.accountId.Some? && c.accountId != owner.accountId then Err(OtherAccount)
    else
      var scoped := if owner.accountId.None? then c else c.(accountId := owner.accountId);
      if !IsConsistent(owner, scoped) then Err(Inconsistent) else Ok(scoped)
  }

  /** The check before a record is written: what the record says about itself and about its checkpoint. */
  predicate IsConsistent(owner: Owner, c: Checkpoint) {
    owner.consistent && owner.taskId == Some(c.taskId) && c.accountId == owner.accountId
  }

  /** The saved checkpoint, the indices of the steps run, and how the attempt ended. */
  datatype Outcome = Outcome(saved: Option<Checkpoint>, ran: seq<nat>, result: Result<Checkpoint, Error>)

  /** One turn of the loop: it stops the attempt, having run the step or not, or goes on from the next checkpoint. */
  datatype Turn =
    | Stop(saved: Option<Checkpoint>, ran: bool, error: Error)
    | Continue(saved: Option<Checkpoint>, next: Checkpoint)

  function TakeTurn(options: Options, owner: Owner, saved: Option<Checkpoint>, c: Checkpoint, fault: Fault): Turn
    requires c.currentStep < |options.steps|
  {
    var i := c.currentStep;
    if fault == AbortBefore(i) then Stop(saved, false, Aborted)
    else
      var produced := options.steps[i].run(c.artifacts);
      var merged := MergeArtifacts(c.artifacts, produced);
      if fault == CrashAfterRun(i) then Stop(saved, true, Crashed)
      else if produced.Rejected? then Stop(saved, true, StepFailed)
      else if merged.None? then Stop(saved, true, InvalidArtifacts)
      else
        var next := Checkpoint(c.accountId, options.taskId, Ids(options.steps), i + 1, merged.value);
        var scoped := Scoped(owner, next);
        if scoped.Err? then Stop(saved, true, scoped.error)
        else if fault == SaveLost(i) then Stop(saved, true, SaveFailed)
        else if fault == SaveKept(i) then Stop(Some(scoped.value), true, SaveFailed)
        else Continue(Some(scoped.value), next)
  }

  function Prepend(ran: seq<nat>, rest: Outcome): Outcome {
    Outcome(rest.saved, ran + rest.ran, rest.result)
  }

  /** The loop from the checkpoint `c` on. */
  function RunFrom(options: Options, owner: Owner, saved: Option<Checkpoint>, c: Checkpoint, fault: Fault): Outcome
    requires c.currentStep <= |options.steps|
    decreases |options.steps| - c.currentStep
  {
    if c.currentStep == |options.steps| then Outcome(saved, [], Ok(c))
    else
      match TakeTurn(options, owner, saved, c, fault)
      case Stop(saved', ran, error) => Outcome(saved', if ran then [c.currentStep] else [], Err(error))
      case Continue(saved', next) =>
        Prepend([c.currentStep], RunFrom(options, owner, saved', next, fault))
  }

  /** A first checkpoint, before any step. */
  function Initial(options: Options): Checkpoint {
    Checkpoint(options.accountId, options.taskId, Ids(options.steps), 0, [])
  }

  function Attempt(options: Options, owner: Owner, saved: Option<Checkpoint>, fault: Fault): Outcome
    requires saved.Some? ==> saved.value.currentStep <= |saved.value.stepList|
  {
    if !ValidPlan(options.steps) then Outcome(saved, [], Err(InvalidPlan))
    else if saved.Some? && !Compatible(saved.value, options) then Outcome(saved, [], Err(Incompatible))
    else RunFrom(options, owner, saved, if saved.Some? then saved.value else Initial(options), fault)
  }

  /** The durable side: one saved checkpoint and the owner it is checked against. */
  class CheckpointStore {
    const owner: Owner
    var saved: Option<Checkpoint>

    /** The ledger's decoder refuses a step beyond the list. */
    ghost predicate Valid()
      reads this
    {
      saved.Some? ==> saved.value.currentStep <= |saved.value.stepList|
    }

    method Save(c: Checkpoint, lost: bool, late: bool) returns (error: Option<Error>)
      modifies this
      ensures var scoped := Scoped(owner, c);
              if scoped.Err? then saved == old(saved) && error == Some(scoped.error)
              else if lost then saved == old(saved) && error == Some(SaveFailed)
              else saved == Some(scoped.value) && error == if late then Some(SaveFailed) else None
    {
      if !owner.known {
        return Some(NotFound);
      }
      if owner.taskId != Some(c.taskId) {
        return Some(NotOwned);
      }
      if c.accountId.Some? && c.accountId != owner.accountId {
        return Some(OtherAccount);
      }
      var scoped := if owner.accountId.None? then c else c.(accountId := owner.accountId);
      if !IsConsistent(owner, scoped) {
        return Some(Inconsistent);
      }
      if lost {
        return Some(SaveFailed);
      }
      saved := Some(scoped);
      return if late then Some(SaveFailed) else None;
    }
  }

  /** The body of the index loop: run the step, then save. */
  method RunStep(options: Options, store: CheckpointStore, checkpoint: Checkpoint, fault: Fault) returns (turn: Turn)
    requires store.Valid() && checkpoint.currentStep < |options.steps|
    modifies store
    ensures turn == TakeTurn(options, store.owner, old(store.saved), checkpoint, fault)
    ensures store.saved == turn.saved && store.Valid()
  {
    var index := checkpoint.currentStep;
    if fault == AbortBefore(index) {
      return Stop(store.saved, false, Aborted);
    }
    var produced := options.steps[index].run(checkpoint.artifacts);
    if fault == CrashAfterRun(index) {
      return Stop(store.saved, true, Crashed);
    }
    if produced.Rejected? {
      return Stop(store.saved, true, StepFailed);
    }
    var merged := MergeArtifacts(checkpoint.artifacts, produced);
    if merged.None? {
      return Stop(store.saved, true, InvalidArtifacts);
    }
    var next := Checkpoint(checkpoint.accountId, options.taskId, Ids(options.steps), index + 1, merged.value);
    var error := store.Save(next, fault == SaveLost(index), fault == SaveKept(index));
    if error.Some? {
      return Stop(store.saved, true, error.value);
    }
    return Continue(store.saved, next);
  }

  method RunCheckpointedTask(options: Options, store: CheckpointStore, fault: Fault)
    returns (ran: seq<nat>, result: Result<Checkpoint, Error>)
    requires store.Valid()
    modifies store
    ensures Outcome(store.saved, ran, result) == Attempt(options, store.owner, old(store.saved), fault)
    ensures store.Valid()
  {
    ran := [];
    if !ValidPlan(options.steps) {
      return ran, Err(InvalidPlan);
    }
    var existing := store.saved;
    if existing.Some? && !Compatible(existing.value, options) {
      return ran, Err(Incompatible);
    }
    var checkpoint := if existing.Some? then existing.value else Initial(options);
    ran, result := RunSteps(options, store, checkpoint, fault);
  }

  /** The index loop, from the checkpoint's step on. */
  method RunSteps(options: Options, store: CheckpointStore, first: Checkpoint, fault: Fault)
    returns (ran: seq<nat>, result: Result<Checkpoint, Error>)
    requires store.Valid() && first.currentStep <= |options.steps|
    modifies store
    ensures Outcome(store.saved, ran, result) == RunFrom(options, store.owner, old(store.saved), first, fault)
    ensures store.Valid()
  {
    ran := [];
    var checkpoint := first;
    ghost var whole := RunFrom(options, store.owner, store.saved, first, fault);
    assert [] + whole.ran == whole.ran;
    while checkpoint.currentStep < |options.steps|
      invariant checkpoint.currentStep <= |options.steps| && store.Valid()
      invariant Prepend(ran, RunFrom(options, store.owner, store.saved, checkpoint, fault)) == whole
      decreases |options.steps| - checkpoint.currentStep
    {
      var index := checkpoint.currentStep;
      var turn := RunStep(options, store, checkpoint, fault);
      match turn {
        case Stop(_, stepRan, error) =>
          return if stepRan then ran + [index] else ran, Err(error);
        case Continue(_, next) =>
          PrependTurn(ran, index, RunFrom(options, store.owner, store.saved, next, fault));
          ran := ran + [index];
          checkpoint := next;
      }
    }
    assert ran + [] == ran;
    return ran, Ok(checkpoint);
  }

  lemma PrependTurn(ran: seq<nat>, index: nat, rest: Outcome)
    ensures Prepend(ran, Prepend([index], rest)) == Prepend(ran + [index], rest)
  {
    assert ran + ([index] + rest.ran) == ran + [index] + rest.ran;
  }

  // ----- Any number of interrupted attempts -----

  /** The uninterrupted artifact list after the first `k` steps; None when one of them fails on its own. */
  function ArtifactsAfter(steps: seq<PlanStep>, k: nat): Option<seq<string>>
    requires k <= |steps|
  {
    if k == 0 then Some([])
    else
      match ArtifactsAfter(steps, k - 1)
      case None => None
      case Some(current) => MergeArtifacts(current, steps[k - 1].run(current))
  }

  /** What may be saved: nothing yet, or the uninterrupted result of the first steps. */
  ghost predicate OnTrack(options: Options, owner: Owner, saved: Option<Checkpoint>) {
    saved.Some? ==>
      var c := saved.value;
      0 < c.currentStep <= |options.steps|
      && c.taskId == options.taskId && c.stepList == Ids(options.steps) && c.accountId == owner.accountId
      && (options.accountId.Some? ==> options.accountId == owner.accountId)
      && ArtifactsAfter(options.steps, c.currentStep) == Some(c.artifacts)
  }

  function Progress(saved: Option<Checkpoint>): nat {
    if saved.Some? then saved.value.currentStep else 0
  }

  /** Consecutive step indices. */
  ghost predicate Consecutive(ran: seq<nat>, from: nat) {
    forall i :: 0 <= i < |ran| ==> ran[i] == from + i
  }

  /** The checkpoint in memory agrees with the uninterrupted run and with what is saved. */
  ghost predicate InStep(options: Options, owner: Owner, saved: Option<Checkpoint>, c: Checkpoint) {
    OnTrack(options, owner, saved) && c.currentStep == Progress(saved) <= |options.steps|
    && ArtifactsAfter(options.steps, c.currentStep) == Some(c.artifacts)
    && (saved.None? ==> c.accountId == options.accountId)
    && (saved.Some? ==> c.accountId == owner.accountId || c.accountId == options.accountId)
  }

  /** How far an attempt got that ran these steps: each is saved but perhaps the last one. */
  ghost predicate Advanced(before: Option<Checkpoint>, o: Outcome) {
    Consecutive(o.ran, Progress(before)) && Progress(before) <= Progress(o.saved)
    && (Progress(o.saved) == Progress(before) + |o.ran| || Progress(o.saved) + 1 == Progress(before) + |o.ran|)
  }

  /** A completed attempt has run to the end with the artifacts of the uninterrupted run. */
  ghost predicate CompletesRight(options: Options, o: Outcome) {
    o.result.Ok? ==>
      Progress(o.saved) == |options.steps| == o.result.value.currentStep
      && ArtifactsAfter(options.steps, |options.steps|) == Some(o.result.value.artifacts)
  }

  lemma TurnStaysInStep(options: Options, owner: Owner, saved: Option<Checkpoint>, c: Checkpoint, fault: Fault)
    requires InStep(options, owner, saved, c) && c.currentStep < |options.steps|
    ensures match TakeTurn(options, owner, saved, c, fault)
            case Stop(saved', ran, _) =>
              OnTrack(options, owner, saved')
              && (saved' == saved || (ran && Progress(saved') == c.currentStep + 1))
            case Continue(saved', next) => InStep(options, owner, saved', next) && next.currentStep == c.currentStep + 1
  {
  }

  lemma {:induction false} RunFromStaysOnTrack(options: Options, owner: Owner, saved: Option<Checkpoint>,
                                               c: Checkpoint, fault: Fault)
    requires InStep(options, owner, saved, c)
    ensures var o := RunFrom(options, owner, saved, c, fault);
            OnTrack(options, owner, o.saved) && Advanced(saved, o) && CompletesRight(options, o)
    decreases |options.steps| - c.currentStep
  {
    if c.currentStep < |options.steps| {
      TurnStaysInStep(options, owner, saved, c, fault);
      match TakeTurn(options, owner, saved, c, fault)
      case Stop(_, _, _) =>
      case Continue(saved', next) =>
        RunFromStaysOnTrack(options, owner, saved', next, fault);
    }
  }

  /** One attempt, from whatever earlier attempts left behind: it never runs a step whose successor is saved. */
  lemma AttemptStaysOnTrack(options: Options, owner: Owner, saved: Option<Checkpoint>, fault: Fault)
    requires OnTrack(options, owner, saved)
    ensures var o := Attempt(options, owner, saved, fault);
            OnTrack(options, owner, o.saved) && Advanced(saved, o) && CompletesRight(options, o)
  {
    if ValidPlan(options.steps) && (saved.Some? ==> Compatible(saved.value, options)) {
      RunFromStaysOnTrack(options, owner, saved, if saved.Some? then saved.value else Initial(options), fault);
    }
  }

  /** Attempts one after another, each interrupted as the list of faults says: the saved checkpoint and all steps
      run. */
  function Attempts(options: Options, owner: Owner, saved: Option<Checkpoint>,
                    faults: seq<Fault>): (r: (Option<Checkpoint>, seq<nat>))
    requires OnTrack(options, owner, saved)
    ensures OnTrack(options, owner, r.0)
    decreases faults
  {
    if faults == [] then (saved, [])
    else
      AttemptStaysOnTrack(options, owner, saved, faults[0]);
      var o := Attempt(options, owner, saved, faults[0]);
      var rest := Attempts(options, owner, o.saved, faults[1..]);
      (rest.0, o.ran + rest.1)
  }

  /** Over all attempts the steps run in index order: each entry is the successor of the one before or, after an
      interruption, the same step again; the last one run is the last one saved or the one after it. */
  ghost predicate InOrder(ran: seq<nat>, from: nat, progress: nat) {
    (ran == [] ==> progress == from)
    && (ran != [] ==> ran[0] == from && (progress == ran[|ran| - 1] || progress == ran[|ran| - 1] + 1))
    && forall i :: 0 < i < |ran| ==> ran[i] == ran[i - 1] || ran[i] == ran[i - 1] + 1
  }

  lemma {:induction false} StepsRunInOrder(options: Options, owner: Owner, saved: Option<Checkpoint>,
                                           faults: seq<Fault>)
    requires OnTrack(options, owner, saved)
    ensures var (after, ran) := Attempts(options, owner, saved, faults); InOrder(ran, Progress(saved), Progress(after))
    decreases |faults|
  {
    if faults != [] {
      AttemptStaysOnTrack(options, owner, saved, faults[0]);
      var o := Attempt(options, owner, saved, faults[0]);
      StepsRunInOrder(options, owner, o.saved, faults[1..]);
      var (after, ran) := Attempts(options, owner, o.saved, faults[1..]);
      OrdersJoin(o.ran, ran, Progress(saved), Progress(o.saved), Progress(after));
    }
  }

  lemma OrdersJoin(first: seq<nat>, rest: seq<nat>, from: nat, middle: nat, end: nat)
    requires Consecutive(first, from) && from <= middle && (middle == from + |first| || middle + 1 == from + |first|)
    requires InOrder(rest, middle, end)
    ensures InOrder(first + rest, from, end)
  {
  }

  // ----- Resuming gives what an uninterrupted run gives -----

  /** The same end up to the account under which the returned checkpoint is labelled. */
  ghost predicate SameEnd(a: Outcome, b: Outcome) {
    a.saved == b.saved
    && (a.result.Ok? <==> b.result.Ok?)
    && (a.result.Err? ==> a.result.error == b.result.error)
    && (a.result.Ok? ==> a.result.value.(accountId := None) == b.result.value.(accountId := None))
  }

  /** The ledger holds a sound record that this task owns. */
  predicate Accepts(owner: Owner, taskId: string) {
    owner.known && owner.consistent && owner.taskId == Some(taskId)
  }

  /** A run that is behind catches up with one that is ahead. */
  lemma {:induction false} CatchUp(options: Options, owner: Owner, saved: Option<Checkpoint>, c: Checkpoint,
                                   ahead: Option<Checkpoint>, d: Checkpoint)
    requires InStep(options, owner, saved, c) && InStep(options, owner, ahead, d)
    requires c.currentStep <= d.currentStep && (ahead.Some? ==> Accepts(owner, options.taskId))
    requires c.taskId == d.taskId == options.taskId && c.stepList == d.stepList == Ids(options.steps)
    ensures SameEnd(RunFrom(options, owner, saved, c, NoFault), RunFrom(options, owner, ahead, d, NoFault))
    decreases |options.steps| - c.currentStep, |options.steps| - d.currentStep
  {
    if c.currentStep < |options.steps| {
      TurnStaysInStep(options, owner, saved, c, NoFault);
      if c.currentStep == d.currentStep {
        assert saved == ahead;
        TurnStaysInStep(options, owner, ahead, d, NoFault);
        match TakeTurn(options, owner, saved, c, NoFault)
        case Stop(_, _, _) =>
        case Continue(saved', next) =>
          var turn := TakeTurn(options, owner, ahead, d, NoFault);
          CatchUp(options, owner, saved', next, turn.saved, turn.next);
      } else {
        EarlierArtifacts(options.steps, c.currentStep + 1, d.currentStep);
        match TakeTurn(options, owner, saved, c, NoFault)
        case Continue(saved', next) =>
          CatchUp(options, owner, saved', next, ahead, d);
      }
    }
  }

  /** If the first `k` steps succeed, so do the first `j`. */
  lemma {:induction false} EarlierArtifacts(steps: seq<PlanStep>, j: nat, k: nat)
    requires j <= k <= |steps| && ArtifactsAfter(steps, k).Some?
    ensures ArtifactsAfter(steps, j).Some?
  {
    if j < k {
      EarlierArtifacts(steps, j, k - 1);
    }
  }

  /** Crash-resume equivalence: after any interrupted attempts, one more attempt that is left alone ends as a single
      uninterrupted run does, with the same saved checkpoint, artifacts or error. */
  lemma ResumeEqualsUninterrupted(options: Options, owner: Owner, faults: seq<Fault>)
    requires ValidPlan(options.steps)
    ensures var saved := Attempts(options, owner, None, faults).0;
            SameEnd(Attempt(options, owner, saved, NoFault), Attempt(options, owner, None, NoFault))
  {
    var saved := Attempts(options, owner, None, faults).0;
    if saved.Some? {
      SavedMeansOwned(options, owner, None, faults);
      CatchUp(options, owner, None, Initial(options), saved, saved.value);
    }
  }

  /** Only the owning task ever has a checkpoint saved. */
  lemma {:induction false} SavedMeansOwned(options: Options, owner: Owner, saved: Option<Checkpoint>,
                                           faults: seq<Fault>)
    requires OnTrack(options, owner, saved) && (saved.Some? ==> Accepts(owner, options.taskId))
    ensures Attempts(options, owner, saved, faults).0.Some? ==> Accepts(owner, options.taskId)
    decreases |faults|
  {
    if faults != [] {
      AttemptStaysOnTrack(options, owner, saved, faults[0]);
      var o := Attempt(options, owner, saved, faults[0]);
      if ValidPlan(options.steps) && (saved.Some? ==> Compatible(saved.value, options)) {
        RunFromOwned(options, owner, saved, if saved.Some? then saved.value else Initial(options), faults[0]);
      }
      SavedMeansOwned(options, owner, o.saved, faults[1..]);
    }
  }

  lemma {:induction false} RunFromOwned(options: Options, owner: Owner, saved: Option<Checkpoint>, c: Checkpoint,
                                        fault: Fault)
    requires c.currentStep <= |options.steps| && (saved.Some? ==> Accepts(owner, options.taskId))
    ensures RunFrom(options, owner, saved, c, fault).saved.Some? ==> Accepts(owner, options.taskId)
    decreases |options.steps| - c.currentStep
  {
    if c.currentStep < |options.steps| {
      match TakeTurn(options, owner, saved, c, fault)
      case Stop(_, _, _) =>
      case Continue(saved', next) => RunFromOwned(options, owner, saved', next, fault);
    }
  }
}
