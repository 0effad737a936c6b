/** The browser job queue (packages/dsh-luban-browser/src/browser-service.ts) as steps between awaits. */
module BrowserQueue {
  import opened Wrappers

  // Requests come in at any time; the one drain prepares, executes and stops. Listeners do not call back in, but they
  // may throw, and then whatever called them is cut short.

  datatype Status = Queued | Running | Succeeded | Failed | Timeout | Cancelled

  predicate IsTerminal(s: Status) {
    s.Succeeded? || s.Failed? || s.Timeout? || s.Cancelled?
  }

  /** A job; its place in the list of jobs is its identity and the order in which it was enqueued. */
  datatype Job = Job(accountId: string, status: Status, aborted: bool, waiters: seq<nat>)

  /** Where the drain stands: not scheduled; awaiting its directories; awaiting a run; awaiting the stop of the browser
      after a run that has an outcome, perhaps with an exception that is still to be raised; or returned or thrown, with
      its final callback still to come. */
  datatype Drain = Idle | Preparing | Executing(job: nat) | Stopping(job: nat, raised: bool) | Returned

  /** The drain is busy with this job. */
  predicate IsBusyWith(d: Drain, id: nat) {
    (d.Executing? || d.Stopping?) && d.job == id
  }

  /** A waiter that was answered, for which job, and with which status. */
  datatype Answer = Answer(waiter: nat, job: nat, status: Status)

  datatype Queue = Queue(
    jobs: seq<Job>, pending: seq<nat>, drain: Drain, closing: bool,
    waitersMade: nat, answers: seq<Answer>,   // every promise handed out, every promise resolved
    started: seq<nat>)                        // the jobs executed so far, in order

  datatype Error = Closed | QueueFull | InvalidTask | NotFound | Thrown

  const NEW_QUEUE := Queue([], [], Idle, false, 0, [], [])

  // ----- Steps -----

  function ActiveCount(jobs: seq<Job>): nat {
    if jobs == [] then 0 else ActiveCount(jobs[..|jobs| - 1]) + Weight(jobs[|jobs| - 1])
  }

  /** Queued and running jobs count against the limit. */
  function Weight(j: Job): nat {
    if j.status.Queued? || j.status.Running? then 1 else 0
  }

  function FindRunning(jobs: seq<Job>): (r: Option<nat>)
    ensures r.Some? ==> r.value < |jobs| && jobs[r.value].status.Running?
  {
    if jobs == [] then None
    else if jobs[0].status.Running? then Some(0)
    else
      match FindRunning(jobs[1..])
      case None => None
      case Some(i) => Some(i + 1)
  }

  function Answers(waiters: seq<nat>, job: nat, status: Status): seq<Answer> {
    seq(|waiters|, i requires 0 <= i < |waiters| => Answer(waiters[i], job, status))
  }

  /** A job ends: its waiters are answered with its status. */
  function Settled(q: Queue, id: nat, status: Status): Queue
    requires id < |q.jobs|
  {
    var job := q.jobs[id];
    q.(jobs := q.jobs[id := job.(status := status, waiters := [])],
       answers := q.answers + Answers(job.waiters, id, status))
  }

  /** A listener throws when a job's end is published: the waiters are not answered. */
  function Unanswered(q: Queue, id: nat, status: Status): Queue
    requires id < |q.jobs|
  {
    q.(jobs := q.jobs[id := q.jobs[id].(status := status)])
  }

  function Ended(q: Queue, id: nat, status: Status, throws: bool): Queue
    requires id < |q.jobs|
  {
    if throws then Unanswered(q, id, status) else Settled(q, id, status)
  }

  /** Jobs taken off the queue end one after the other. */
  function SettledAll(q: Queue, ids: seq<nat>, status: Status): (r: Queue)
    ensures |r.jobs| == |q.jobs|
    decreases ids
  {
    if ids == [] then q
    else SettledAll(if ids[0] < |q.jobs| then Settled(q, ids[0], status) else q, ids[1..], status)
  }

  /** How many of `n` publications come to their end when the listeners may throw at one of them. */
  function Reached(n: nat, throwsAt: Option<nat>): (r: nat)
    ensures r <= n
  {
    if throwsAt.Some? && throwsAt.value < n then throwsAt.value else n
  }

  /** Everything is taken off the queue and ends, one job after the other, until listeners throw. */
  function Cleared(q: Queue, status: Status, throwsAt: Option<nat>): Queue {
    var (ids, n) := (q.pending, Reached(|q.pending|, throwsAt));
    var settled := SettledAll(q.(pending := []), ids[..n], status);
    if n < |ids| && ids[n] < |q.jobs| then Unanswered(settled, ids[n], status) else settled
  }

  /** Listeners that throw keep the drain from being scheduled. */
  function Enqueued(q: Queue, accountId: string, validTask: bool, throws: bool,
                    maxPending: nat): (Queue, Option<Error>) {
    if q.closing then (q, Some(Closed))
    else if ActiveCount(q.jobs) >= maxPending then (q, Some(QueueFull))
    else if !validTask then (q, Some(InvalidTask))
    else (q.(jobs := q.jobs + [Job(accountId, Queued, false, [])], pending := q.pending + [|q.jobs|],
             drain := if q.drain.Idle? && !throws then Preparing else q.drain), if throws then Some(Thrown) else None)
  }

  function Without(ids: seq<nat>, id: nat): seq<nat> {
    if ids == [] then [] else if ids[0] == id then ids[1..] else [ids[0]] + Without(ids[1..], id)
  }

  function Aborted(q: Queue, id: nat): Queue
    requires id < |q.jobs|
  {
    q.(jobs := q.jobs[id := q.jobs[id].(aborted := true)])
  }

  predicate MayCancel(q: Queue, id: nat, accountId: string) {
    id < |q.jobs| && q.jobs[id].accountId == accountId && !IsTerminal(q.jobs[id].status)
  }

  function CancelledJob(q: Queue, id: nat, accountId: string, throws: bool): (Queue, Result<bool, Error>) {
    if !MayCancel(q, id, accountId) then (q, Ok(false))
    else if q.jobs[id].status.Queued?
    then (Ended(q.(pending := Without(q.pending, id)), id, Cancelled, throws), if throws then Err(Thrown) else Ok(true))
    else (Aborted(q, id), Ok(true))
  }

  /** A waiter of a job that has ended is answered at once. */
  function Waited(q: Queue, id: nat, accountId: string): (Queue, Option<Error>) {
    if id >= |q.jobs| || q.jobs[id].accountId != accountId then (q, Some(NotFound))
    else
      var w := q.waitersMade;
      if IsTerminal(q.jobs[id].status)
      then (q.(waitersMade := w + 1, answers := q.answers + [Answer(w, id, q.jobs[id].status)]), None)
      else (q.(waitersMade := w + 1, jobs := q.jobs[id := q.jobs[id].(waiters := q.jobs[id].waiters + [w])]), None)
  }

  /** The synchronous part of stop and close: everything queued is cancelled, the running job is told to abort. */
  function ClearedOut(q: Queue, throwsAt: Option<nat>): Queue {
    var cleared := Cleared(q, Cancelled, throwsAt);
    if Reached(|q.pending|, throwsAt) < |q.pending| then cleared
    else
      match FindRunning(cleared.jobs)
      case None => cleared
      case Some(id) => Aborted(cleared, id)
  }

  /** The head of the drain loop: the next queued job starts, or the drain returns. Listeners that throw when the
      start is published end the drain. */
  function TookNext(q: Queue, throws: bool): Queue
    decreases |q.pending|
  {
    if q.closing || q.pending == [] then q.(drain := Returned)
    else
      var id := q.pending[0];
      var rest := q.(pending := q.pending[1..]);
      if id >= |q.jobs| || !q.jobs[id].status.Queued? then TookNext(rest, throws)
      else
        rest.(jobs := q.jobs[id := q.jobs[id].(status := Running)],
              drain := if throws then Returned else Executing(id), started := q.started + [id])
  }

  /** A job is over: its waiters are answered, and the drain goes on unless an exception ends it. */
  function AfterRun(q: Queue, id: nat, status: Status, raised: bool, endThrows: bool, startThrows: bool): Queue
    requires id < |q.jobs|
  {
    if endThrows || raised then Ended(q, id, status, endThrows).(drain := Returned)
    else TookNext(Settled(q, id, status), startThrows)
  }

  /** Each event says at which of its publications listeners throw: when a job is added or cancelled, at which of
      the jobs that are cleared out, when a run reports its error, when it ends, and when the next one starts. */
  datatype Event =
    | Enqueue(accountId: string, validTask: bool, throws: bool)
    | Cancel(job: nat, accountId: string, throws: bool)
    | Wait(job: nat, accountId: string)
    | Stop(throwsAt: Option<nat>)
    | Close(throwsAt: Option<nat>)
    | DirectoriesReady(ok: bool, throwsAt: Option<nat>, startThrows: bool)
    | RunEnds(outcome: Status, browserStarted: bool, errorThrows: bool, endThrows: bool, startThrows: bool)
    | BrowserStopped(ok: bool, endThrows: bool, startThrows: bool)
    | DrainSettles

  /** Only a run that fails reports an error. */
  predicate Raises(outcome: Status, errorThrows: bool) {
    errorThrows && !outcome.Succeeded?
  }

  function Step(q: Queue, e: Event, maxPending: nat): Queue {
    match e
    case Enqueue(accountId, validTask, throws) => Enqueued(q, accountId, validTask, throws, maxPending).0
    case Cancel(id, accountId, throws) => CancelledJob(q, id, accountId, throws).0
    case Wait(id, accountId) => Waited(q, id, accountId).0
    case Stop(throwsAt) => ClearedOut(q, throwsAt)
    case Close(throwsAt) => if q.closing then q else ClearedOut(q.(closing := true), throwsAt)
    case DirectoriesReady(ok, throwsAt, startThrows) =>
      if !q.drain.Preparing? then q
      else if ok then TookNext(q, startThrows)
      else Cleared(q, Failed, throwsAt).(drain := Returned)
    case RunEnds(outcome, browserStarted, errorThrows, endThrows, startThrows) =>
      if !q.drain.Executing? || q.drain.job >= |q.jobs| || !IsTerminal(outcome) then q
      else
        var (id, raised) := (q.drain.job, Raises(outcome, errorThrows));
        if browserStarted then Unanswered(q, id, outcome).(drain := Stopping(id, raised))
        else AfterRun(q, id, outcome, raised, endThrows, startThrows)
    case BrowserStopped(ok, endThrows, startThrows) =>
      if !q.drain.Stopping? || q.drain.job >= |q.jobs| then q
      else
        var id := q.drain.job;
        AfterRun(q, id, if ok then q.jobs[id].status else Failed, q.drain.raised, endThrows, startThrows)
    case DrainSettles =>
      if !q.drain.Returned? then q
      else q.(drain := if q.pending != [] && !q.closing then Preparing else Idle)
  }

  function Run(q: Queue, events: seq<Event>, maxPending: nat): Queue
    decreases |events|
  {
    if events == [] then q else Run(Step(q, events[0], maxPending), events[1..], maxPending)
  }

  // ----- What holds whatever listeners do -----

  ghost predicate Increasing(ids: seq<nat>) {
    forall i, j :: 0 <= i < j < |ids| ==> ids[i] < ids[j]
  }

  /** The pending list holds queued jobs in the order they were enqueued, each once. */
  ghost predicate PendingIsQueued(q: Queue) {
    Increasing(q.pending) && (forall id :: id in q.pending ==> id < |q.jobs| && q.jobs[id].status.Queued?)
  }

  /** The job inside the drain runs, or has its outcome. */
  ghost predicate DrainHolds(q: Queue) {
    (q.drain.Executing? ==> q.drain.job < |q.jobs| && q.jobs[q.drain.job].status.Running?)
    && (q.drain.Stopping? ==> q.drain.job < |q.jobs| && IsTerminal(q.jobs[q.drain.job].status))
  }

  /** Jobs are executed in the order they were enqueued. */
  ghost predicate FirstInFirstOut(q: Queue) {
    Increasing(q.started) && (forall id :: id in q.started ==> id < |q.jobs| && !q.jobs[id].status.Queued?)
    && (q.started != [] && q.pending != [] ==> q.started[|q.started| - 1] < q.pending[0])
  }

  /** A closed queue has nothing pending. */
  ghost predicate Sound(q: Queue) {
    PendingIsQueued(q) && DrainHolds(q) && FirstInFirstOut(q) && (q.closing ==> q.pending == [])
  }

  // ----- What a listener that throws can break -----

  /** A pending job has a drain scheduled. */
  ghost predicate NoneStranded(q: Queue) {
    q.pending != [] ==> !q.drain.Idle?
  }

  /** Every queued job is pending. */
  ghost predicate NoneForgotten(q: Queue) {
    forall id :: 0 <= id < |q.jobs| && q.jobs[id].status.Queued? ==> id in q.pending
  }

  /** At most one job runs, and it is the one inside the drain. */
  ghost predicate OneRuns(q: Queue) {
    forall id :: 0 <= id < |q.jobs| && q.jobs[id].status.Running? ==> q.drain == Executing(id)
  }

  /** Only a job that has not left the queue and the drain still has waiters. */
  ghost predicate WaitersWait(q: Queue) {
    forall id :: 0 <= id < |q.jobs| && q.jobs[id].waiters != [] ==> q.jobs[id].status.Queued? || IsBusyWith(q.drain, id)
  }

  ghost predicate Orderly(q: Queue) {
    Sound(q) && NoneStranded(q) && NoneForgotten(q) && OneRuns(q) && WaitersWait(q)
  }

  /** Which of the four parts of the order are broken. */
  datatype Damage = Damage(strands: bool, forgets: bool, leavesRunning: bool, leavesWaiters: bool)

  const NO_DAMAGE := Damage(false, false, false, false)

  function HasWaiters(q: Queue, id: nat): bool {
    id < |q.jobs| && q.jobs[id].waiters != []
  }

  /** Jobs behind the one at which listeners throw are forgotten, and its own waiters are left. */
  function ClearingDamage(q: Queue, throwsAt: Option<nat>): Damage {
    var n := Reached(|q.pending|, throwsAt);
    if n == |q.pending| then NO_DAMAGE
    else NO_DAMAGE.(forgets := n + 1 < |q.pending|, leavesWaiters := HasWaiters(q, q.pending[n]))
  }

  /** A start at which listeners throw leaves the job running, with its waiters, and nobody to end it. */
  function StartDamage(q: Queue, throws: bool): Damage {
    if !throws || q.pending == [] then NO_DAMAGE
    else NO_DAMAGE.(leavesRunning := true, leavesWaiters := HasWaiters(q, q.pending[0]))
  }

  function EndDamage(q: Queue, id: nat, raised: bool, endThrows: bool, startThrows: bool): Damage {
    if endThrows then NO_DAMAGE.(leavesWaiters := HasWaiters(q, id))
    else if raised then NO_DAMAGE
    else StartDamage(q, startThrows)
  }

  /** What the listeners' exceptions during an event break. */
  function DamageOf(q: Queue, e: Event, maxPending: nat): Damage {
    match e
    case Enqueue(_, validTask, throws) =>
      NO_DAMAGE.(strands := throws && q.drain.Idle? && !q.closing && ActiveCount(q.jobs) < maxPending && validTask)
    case Cancel(id, accountId, throws) =>
      NO_DAMAGE.(leavesWaiters :=
        throws && MayCancel(q, id, accountId) && q.jobs[id].status.Queued? && HasWaiters(q, id))
    case Wait(_, _) => NO_DAMAGE
    case Stop(throwsAt) => ClearingDamage(q, throwsAt)
    case Close(throwsAt) => ClearingDamage(q, throwsAt)
    case DirectoriesReady(ok, throwsAt, startThrows) =>
      if !q.drain.Preparing? then NO_DAMAGE
      else if ok then StartDamage(q, startThrows)
      else ClearingDamage(q, throwsAt)
    case RunEnds(outcome, browserStarted, errorThrows, endThrows, startThrows) =>
      if !q.drain.Executing? || !IsTerminal(outcome) || browserStarted then NO_DAMAGE
      else EndDamage(q, q.drain.job, Raises(outcome, errorThrows), endThrows, startThrows)
    case BrowserStopped(_, endThrows, startThrows) =>
      if !q.drain.Stopping? then NO_DAMAGE else EndDamage(q, q.drain.job, q.drain.raised, endThrows, startThrows)
    case DrainSettles => NO_DAMAGE
  }

  // ----- Waiters and the limit -----

  /** How often a waiter occurs in a list of waiters, in the jobs, and among the answers. */
  function Occurs(waiters: seq<nat>, w: nat): nat {
    if waiters == [] then 0 else Occurs(waiters[..|waiters| - 1], w) + (if waiters[|waiters| - 1] == w then 1 else 0)
  }

  function WaitingCount(jobs: seq<Job>, w: nat): nat {
    if jobs == [] then 0 else WaitingCount(jobs[..|jobs| - 1], w) + Occurs(jobs[|jobs| - 1].waiters, w)
  }

  function AnswerCount(answers: seq<Answer>, w: nat): nat {
    if answers == [] then 0
    else AnswerCount(answers[..|answers| - 1], w) + (if answers[|answers| - 1].waiter == w then 1 else 0)
  }

  /** Every waiter handed out so far waits in exactly one job or has been answered exactly once. */
  ghost predicate WaitersConserved(q: Queue) {
    forall w: nat :: Accounted(q, w)
  }

  ghost predicate Accounted(q: Queue, w: nat) {
    WaitingCount(q.jobs, w) + AnswerCount(q.answers, w) == (if w < q.waitersMade then 1 else 0)
  }

  ghost predicate AnswersAreFinal(q: Queue) {
    forall i :: 0 <= i < |q.answers| ==> IsTerminal(q.answers[i].status)
  }

  ghost predicate Tallied(q: Queue, maxPending: nat) {
    WaitersConserved(q) && AnswersAreFinal(q) && ActiveCount(q.jobs) <= maxPending
  }

  ghost predicate Inv(q: Queue, maxPending: nat) {
    Sound(q) && Tallied(q, maxPending)
  }

  // ----- Counting -----

  lemma {:induction false} CountUpdate(jobs: seq<Job>, i: nat, j: Job)
    requires i < |jobs|
    ensures ActiveCount(jobs[i := j]) + Weight(jobs[i]) == ActiveCount(jobs) + Weight(j)
    decreases |jobs|
  {
    var n := |jobs| - 1;
    var updated := jobs[i := j];
    if i == n {
      assert updated[..n] == jobs[..n];
    } else {
      CountUpdate(jobs[..n], i, j);
      assert updated[..n] == jobs[..n][i := j];
    }
  }

  lemma {:induction false} WaitingUpdate(jobs: seq<Job>, i: nat, j: Job, w: nat)
    requires i < |jobs|
    ensures WaitingCount(jobs[i := j], w) + Occurs(jobs[i].waiters, w) == WaitingCount(jobs, w) + Occurs(j.waiters, w)
    decreases |jobs|
  {
    var n := |jobs| - 1;
    var updated := jobs[i := j];
    if i == n {
      assert updated[..n] == jobs[..n];
    } else {
      WaitingUpdate(jobs[..n], i, j, w);
      assert updated[..n] == jobs[..n][i := j];
    }
  }

  lemma AppendedJob(jobs: seq<Job>, j: Job, w: nat)
    ensures ActiveCount(jobs + [j]) == ActiveCount(jobs) + Weight(j)
    ensures WaitingCount(jobs + [j], w) == WaitingCount(jobs, w) + Occurs(j.waiters, w)
  {
    assert (jobs + [j])[..|jobs|] == jobs;
  }

  lemma {:induction false} AnswersCounted(a: seq<Answer>, waiters: seq<nat>, job: nat, status: Status, w: nat)
    ensures AnswerCount(a + Answers(waiters, job, status), w) == AnswerCount(a, w) + Occurs(waiters, w)
    decreases |waiters|
  {
    var more := Answers(waiters, job, status);
    if waiters == [] {
      assert a + more == a;
    } else {
      var n := |waiters| - 1;
      AnswersCounted(a, waiters[..n], job, status, w);
      var all := a + more;
      assert all[..|all| - 1] == a + Answers(waiters[..n], job, status);
      assert all[|all| - 1] == Answer(waiters[n], job, status);
    }
  }

  lemma SettledTallied(q: Queue, id: nat, status: Status, maxPending: nat)
    requires Tallied(q, maxPending) && id < |q.jobs| && IsTerminal(status)
    ensures Tallied(Settled(q, id, status), maxPending)
  {
    var job := q.jobs[id];
    var ended := job.(status := status, waiters := []);
    CountUpdate(q.jobs, id, ended);
    forall w: nat ensures Accounted(Settled(q, id, status), w) {
      assert Accounted(q, w);
      WaitingUpdate(q.jobs, id, ended, w);
      AnswersCounted(q.answers, job.waiters, id, status, w);
    }
  }

  lemma {:induction false} SettledAllTallied(q: Queue, ids: seq<nat>, status: Status, maxPending: nat)
    requires Tallied(q, maxPending) && IsTerminal(status)
    ensures Tallied(SettledAll(q, ids, status), maxPending)
    decreases |ids|
  {
    if ids != [] {
      if ids[0] < |q.jobs| {
        SettledTallied(q, ids[0], status, maxPending);
      }
      SettledAllTallied(if ids[0] < |q.jobs| then Settled(q, ids[0], status) else q, ids[1..], status, maxPending);
    }
  }

  /** A change of one job that adds no weight and keeps its waiters. */
  lemma UpdatedTallied(q: Queue, id: nat, job: Job, maxPending: nat)
    requires Tallied(q, maxPending) && id < |q.jobs|
    requires Weight(job) <= Weight(q.jobs[id]) && job.waiters == q.jobs[id].waiters
    ensures Tallied(q.(jobs := q.jobs[id := job]), maxPending)
  {
    CountUpdate(q.jobs, id, job);
    var r := q.(jobs := q.jobs[id := job]);
    forall w: nat ensures Accounted(r, w) {
      assert Accounted(q, w);
      WaitingUpdate(q.jobs, id, job, w);
    }
  }

  /** Fields that the tally does not look at. */
  lemma SameTally(q: Queue, r: Queue, maxPending: nat)
    requires Tallied(q, maxPending)
    requires r.jobs == q.jobs && r.answers == q.answers && r.waitersMade == q.waitersMade
    ensures Tallied(r, maxPending)
  {
    forall w: nat ensures Accounted(r, w) {
      assert Accounted(q, w);
    }
  }

  lemma EndedTallied(q: Queue, id: nat, status: Status, throws: bool, maxPending: nat)
    requires Tallied(q, maxPending) && id < |q.jobs| && IsTerminal(status)
    ensures Tallied(Ended(q, id, status, throws), maxPending)
  {
    if throws {
      UpdatedTallied(q, id, q.jobs[id].(status := status), maxPending);
    } else {
      SettledTallied(q, id, status, maxPending);
    }
  }

  lemma ClearedTallied(q: Queue, status: Status, throwsAt: Option<nat>, maxPending: nat)
    requires Tallied(q, maxPending) && IsTerminal(status)
    ensures Tallied(Cleared(q, status, throwsAt), maxPending)
  {
    var (ids, n) := (q.pending, Reached(|q.pending|, throwsAt));
    var settled := SettledAll(q.(pending := []), ids[..n], status);
    SameTally(q, q.(pending := []), maxPending);
    SettledAllTallied(q.(pending := []), ids[..n], status, maxPending);
    if n < |ids| && ids[n] < |q.jobs| {
      EndedTallied(settled, ids[n], status, true, maxPending);
    }
  }

  lemma {:induction false} TookNextTallied(q: Queue, throws: bool, maxPending: nat)
    requires Tallied(q, maxPending)
    ensures Tallied(TookNext(q, throws), maxPending)
    decreases |q.pending|
  {
    if q.closing || q.pending == [] {
      SameTally(q, TookNext(q, throws), maxPending);
    } else {
      var id := q.pending[0];
      var rest := q.(pending := q.pending[1..]);
      SameTally(q, rest, maxPending);
      if id >= |q.jobs| || !q.jobs[id].status.Queued? {
        TookNextTallied(rest, throws, maxPending);
      } else {
        UpdatedTallied(q, id, q.jobs[id].(status := Running), maxPending);
        SameTally(q.(jobs := q.jobs[id := q.jobs[id].(status := Running)]), TookNext(q, throws), maxPending);
      }
    }
  }

  lemma AfterRunTallied(q: Queue, id: nat, status: Status, raised: bool, endThrows: bool, startThrows: bool,
                        maxPending: nat)
    requires Tallied(q, maxPending) && id < |q.jobs| && IsTerminal(status)
    ensures Tallied(AfterRun(q, id, status, raised, endThrows, startThrows), maxPending)
  {
    EndedTallied(q, id, status, endThrows, maxPending);
    if endThrows || raised {
      SameTally(Ended(q, id, status, endThrows), Ended(q, id, status, endThrows).(drain := Returned), maxPending);
    } else {
      TookNextTallied(Settled(q, id, status), startThrows, maxPending);
    }
  }

  lemma ClearedOutTallied(q: Queue, throwsAt: Option<nat>, maxPending: nat)
    requires Tallied(q, maxPending)
    ensures Tallied(ClearedOut(q, throwsAt), maxPending)
  {
    var cleared := Cleared(q, Cancelled, throwsAt);
    ClearedTallied(q, Cancelled, throwsAt, maxPending);
    var running := FindRunning(cleared.jobs);
    if running.Some? {
      UpdatedTallied(cleared, running.value, cleared.jobs[running.value].(aborted := true), maxPending);
    }
  }

  lemma WaitedTallied(q: Queue, id: nat, accountId: string, maxPending: nat)
    requires Tallied(q, maxPending)
    ensures Tallied(Waited(q, id, accountId).0, maxPending)
  {
    if id < |q.jobs| && q.jobs[id].accountId == accountId {
      var w := q.waitersMade;
      var r := Waited(q, id, accountId).0;
      var job := q.jobs[id];
      var waiting := job.(waiters := job.waiters + [w]);
      CountUpdate(q.jobs, id, waiting);
      forall v: nat ensures Accounted(r, v) {
        assert Accounted(q, v);
        WaitingUpdate(q.jobs, id, waiting, v);
        assert waiting.waiters[..|job.waiters|] == job.waiters;
        assert (q.answers + [Answer(w, id, job.status)])[..|q.answers|] == q.answers;
      }
    }
  }

  lemma CancelledTallied(q: Queue, id: nat, accountId: string, throws: bool, maxPending: nat)
    requires Tallied(q, maxPending)
    ensures Tallied(CancelledJob(q, id, accountId, throws).0, maxPending)
  {
    if MayCancel(q, id, accountId) {
      if q.jobs[id].status.Queued? {
        SameTally(q, q.(pending := Without(q.pending, id)), maxPending);
        EndedTallied(q.(pending := Without(q.pending, id)), id, Cancelled, throws, maxPending);
      } else {
        UpdatedTallied(q, id, q.jobs[id].(aborted := true), maxPending);
      }
    }
  }

  lemma EnqueuedTallied(q: Queue, accountId: string, validTask: bool, throws: bool, maxPending: nat)
    requires Tallied(q, maxPending)
    ensures Tallied(Enqueued(q, accountId, validTask, throws, maxPending).0, maxPending)
  {
    var r := Enqueued(q, accountId, validTask, throws, maxPending).0;
    if r != q {
      var job := Job(accountId, Queued, false, []);
      forall w: nat ensures Accounted(r, w) {
        assert Accounted(q, w);
        AppendedJob(q.jobs, job, w);
      }
      AppendedJob(q.jobs, job, 0);
    }
  }

  /** Steps of the drain. */
  lemma DrainTallied(q: Queue, e: Event, maxPending: nat)
    requires Tallied(q, maxPending) && DrainHolds(q)
    requires e.DirectoriesReady? || e.RunEnds? || e.BrowserStopped? || e.DrainSettles?
    ensures Tallied(Step(q, e, maxPending), maxPending)
  {
    match e
    case DirectoriesReady(ok, throwsAt, startThrows) =>
      TookNextTallied(q, startThrows, maxPending);
      ClearedTallied(q, Failed, throwsAt, maxPending);
      var failed := Cleared(q, Failed, throwsAt);
      SameTally(failed, failed.(drain := Returned), maxPending);
    case RunEnds(outcome, browserStarted, errorThrows, endThrows, startThrows) =>
      if q.drain.Executing? && IsTerminal(outcome) {
        var (id, raised) := (q.drain.job, Raises(outcome, errorThrows));
        EndedTallied(q, id, outcome, true, maxPending);
        SameTally(Unanswered(q, id, outcome), Unanswered(q, id, outcome).(drain := Stopping(id, raised)), maxPending);
        AfterRunTallied(q, id, outcome, raised, endThrows, startThrows, maxPending);
      }
    case BrowserStopped(ok, endThrows, startThrows) =>
      if q.drain.Stopping? {
        var id := q.drain.job;
        var status := if ok then q.jobs[id].status else Failed;
        AfterRunTallied(q, id, status, q.drain.raised, endThrows, startThrows, maxPending);
      }
    case DrainSettles =>
      SameTally(q, Step(q, e, maxPending), maxPending);
  }

  lemma StepKeepsTally(q: Queue, e: Event, maxPending: nat)
    requires Inv(q, maxPending)
    ensures Tallied(Step(q, e, maxPending), maxPending)
  {
    match e
    case Enqueue(accountId, validTask, throws) => EnqueuedTallied(q, accountId, validTask, throws, maxPending);
    case Cancel(id, accountId, throws) => CancelledTallied(q, id, accountId, throws, maxPending);
    case Wait(id, accountId) => WaitedTallied(q, id, accountId, maxPending);
    case Stop(throwsAt) => ClearedOutTallied(q, throwsAt, maxPending);
    case Close(throwsAt) =>
      SameTally(q, q.(closing := true), maxPending);
      ClearedOutTallied(q.(closing := true), throwsAt, maxPending);
    case _ => DrainTallied(q, e, maxPending);
  }

  // ----- Order -----

  /** What settling a list of jobs does to each job; nothing else of the queue is looked at here. */
  ghost predicate SettledJobs(before: seq<Job>, after: seq<Job>, ids: seq<nat>, status: Status) {
    |after| == |before|
    && forall id :: 0 <= id < |before| ==>
         after[id] == if id in ids then before[id].(status := status, waiters := []) else before[id]
  }

  lemma {:induction false} SettledAllJobs(q: Queue, ids: seq<nat>, status: Status)
    requires forall id :: id in ids ==> id < |q.jobs|
    ensures var r := SettledAll(q, ids, status);
            SettledJobs(q.jobs, r.jobs, ids, status) && r == q.(jobs := r.jobs, answers := r.answers)
    decreases |ids|
  {
    if ids != [] {
      assert ids[0] in ids && forall id :: id in ids[1..] ==> id in ids;
      SettledAllJobs(Settled(q, ids[0], status), ids[1..], status);
    }
  }

  lemma {:induction false} WithoutOne(ids: seq<nat>, id: nat)
    requires Increasing(ids)
    ensures Increasing(Without(ids, id))
    ensures forall x :: x in Without(ids, id) <==> x in ids && x != id
    ensures Without(ids, id) != [] ==> ids != [] && ids[0] <= Without(ids, id)[0]
  {
    if ids != [] {
      var (first, rest) := (ids[0], ids[1..]);
      assert Increasing(rest) && ids == [first] + rest;
      assert forall x :: x in rest ==> first < x;
      if first != id {
        WithoutOne(rest, id);
        PrependIncreasing(first, Without(rest, id));
      }
    }
  }

  lemma PrependIncreasing(first: nat, ids: seq<nat>)
    requires Increasing(ids) && forall x :: x in ids ==> first < x
    ensures Increasing([first] + ids)
  {
    assert forall i :: 0 <= i < |ids| ==> ids[i] in ids;
  }

  lemma AppendIncreasing(ids: seq<nat>, id: nat)
    requires Increasing(ids) && forall x :: x in ids ==> x < id
    ensures Increasing(ids + [id])
  {
    assert forall i :: 0 <= i < |ids| ==> ids[i] in ids;
  }

  lemma AppendStarted(started: seq<nat>, id: nat)
    requires Increasing(started) && (started != [] ==> started[|started| - 1] < id)
    ensures Increasing(started + [id])
  {
  }

  /** `t` is sound, and of the order of `q` exactly the damaged parts are lost. */
  ghost predicate Damaged(q: Queue, t: Queue, d: Damage) {
    Sound(t)
    && (Orderly(q) ==>
          (NoneStranded(t) <==> !d.strands) && (NoneForgotten(t) <==> !d.forgets)
          && (OneRuns(t) <==> !d.leavesRunning) && (WaitersWait(t) <==> !d.leavesWaiters))
  }

  /** Neither order nor waiting depends on more than the statuses, the drain and who waits where. */
  lemma SameOrder(q: Queue, r: Queue)
    requires Sound(q) && r.pending == q.pending && r.drain == q.drain && r.closing == q.closing
    requires r.started == q.started && |r.jobs| == |q.jobs|
    requires forall id :: 0 <= id < |q.jobs| ==> r.jobs[id].status == q.jobs[id].status
    requires forall id :: 0 <= id < |q.jobs| && IsTerminal(q.jobs[id].status) ==>
      r.jobs[id].waiters == q.jobs[id].waiters
    ensures Damaged(q, r, NO_DAMAGE)
  {
    assert Sound(r) && NoneStranded(r) <==> NoneStranded(q);
    if Orderly(q) {
      forall id | 0 <= id < |r.jobs| && r.jobs[id].waiters != []
        ensures r.jobs[id].status.Queued? || IsBusyWith(r.drain, id)
      {
        assert q.jobs[id].status.Running? ==> q.drain == Executing(id);
      }
    }
  }

  lemma EnqueuedDamages(q: Queue, accountId: string, validTask: bool, throws: bool, maxPending: nat)
    requires Sound(q)
    ensures Damaged(q, Enqueued(q, accountId, validTask, throws, maxPending).0,
                    DamageOf(q, Enqueue(accountId, validTask, throws), maxPending))
  {
    var r := Enqueued(q, accountId, validTask, throws, maxPending).0;
    if r != q {
      assert forall id: nat :: id in r.pending <==> id in q.pending || id == |q.jobs|;
      assert q.started != [] ==> q.started[|q.started| - 1] in q.started;
      assert r.pending[0] == if q.pending == [] then |q.jobs| else q.pending[0];
      AppendIncreasing(q.pending, |q.jobs|);
      assert Sound(r);
    }
  }

  /** A job that is cancelled, with its waiters answered or not. */
  lemma CancelQueuedDamages(q: Queue, id: nat, throws: bool)
    requires Sound(q) && id < |q.jobs| && q.jobs[id].status.Queued?
    ensures Damaged(q, Ended(q.(pending := Without(q.pending, id)), id, Cancelled, throws),
                    NO_DAMAGE.(leavesWaiters := throws && HasWaiters(q, id)))
  {
    var r := Ended(q.(pending := Without(q.pending, id)), id, Cancelled, throws);
    WithoutOne(q.pending, id);
    assert PendingIsQueued(r) && DrainHolds(r);
    assert FirstInFirstOut(r);
    if Orderly(q) {
      assert NoneForgotten(r) && OneRuns(r);
      WaitersAfterEnd(q, r, id, Cancelled, throws);
    }
  }

  /** The waiters of a job that leaves the queue are left exactly when they are not answered. */
  lemma WaitersAfterEnd(q: Queue, r: Queue, id: nat, status: Status, throws: bool)
    requires WaitersWait(q) && id < |q.jobs| && IsTerminal(status) && !IsBusyWith(r.drain, id)
    requires r.jobs == Ended(q, id, status, throws).jobs
    requires forall x :: 0 <= x < |q.jobs| && x != id && IsBusyWith(q.drain, x) ==> IsBusyWith(r.drain, x)
    ensures WaitersWait(r) <==> !(throws && HasWaiters(q, id))
  {
    if !(throws && HasWaiters(q, id)) {
      forall x | 0 <= x < |r.jobs| && r.jobs[x].waiters != []
        ensures r.jobs[x].status.Queued? || IsBusyWith(r.drain, x)
      {
        assert x != id;
      }
    } else {
      assert r.jobs[id].waiters != [] && !r.jobs[id].status.Queued?;
    }
  }

  lemma CancelledDamages(q: Queue, id: nat, accountId: string, throws: bool, maxPending: nat)
    requires Sound(q)
    ensures Damaged(q, CancelledJob(q, id, accountId, throws).0,
                    DamageOf(q, Cancel(id, accountId, throws), maxPending))
  {
    if MayCancel(q, id, accountId) {
      if q.jobs[id].status.Queued? {
        CancelQueuedDamages(q, id, throws);
      } else {
        SameOrder(q, Aborted(q, id));
      }
    }
  }

  // ----- Clearing the queue -----

  /** Up to the job at which listeners throw, the jobs are settled; that one has ended; those behind it are as
      before. */
  ghost predicate ClearedJobs(before: seq<Job>, after: seq<Job>, ids: seq<nat>, n: nat, status: Status)
    requires n <= |ids|
  {
    |after| == |before|
    && forall id :: 0 <= id < |before| ==>
         after[id] == if id in ids[..n] then before[id].(status := status, waiters := [])
                      else if n < |ids| && id == ids[n] then before[id].(status := status)
                      else before[id]
  }

  lemma ClearedAre(q: Queue, status: Status, throwsAt: Option<nat>)
    requires PendingIsQueued(q)
    ensures var (r, n) := (Cleared(q, status, throwsAt), Reached(|q.pending|, throwsAt));
            ClearedJobs(q.jobs, r.jobs, q.pending, n, status)
            && r == q.(jobs := r.jobs, answers := r.answers, pending := [])
  {
    var (ids, n) := (q.pending, Reached(|q.pending|, throwsAt));
    assert forall id :: id in ids[..n] ==> id in ids;
    SettledAllJobs(q.(pending := []), ids[..n], status);
    if n < |ids| {
      assert ids[n] in ids && ids[n] !in ids[..n];
    }
  }

  lemma ClearedIsSound(q: Queue, r: Queue, n: nat, status: Status)
    requires PendingIsQueued(q) && DrainHolds(q) && FirstInFirstOut(q) && IsTerminal(status) && n <= |q.pending|
    requires ClearedJobs(q.jobs, r.jobs, q.pending, n, status)
    requires r == q.(jobs := r.jobs, answers := r.answers, pending := [])
    ensures Sound(r)
  {
    assert forall id :: id in q.pending[..n] ==> id in q.pending;
    assert n < |q.pending| ==> q.pending[n] in q.pending;
    assert DrainHolds(r) && FirstInFirstOut(r);
  }

  /** The jobs behind the one at which listeners throw are queued and in no list. */
  lemma ClearedForgets(q: Queue, r: Queue, n: nat, status: Status)
    requires PendingIsQueued(q) && NoneForgotten(q) && IsTerminal(status) && n <= |q.pending|
    requires ClearedJobs(q.jobs, r.jobs, q.pending, n, status) && r.pending == []
    ensures NoneForgotten(r) <==> !(n + 1 < |q.pending|)
  {
    if n + 1 < |q.pending| {
      var id := q.pending[n + 1];
      assert id in q.pending && id !in q.pending[..n] && id != q.pending[n];
      assert r.jobs[id].status.Queued?;
    } else {
      forall id | 0 <= id < |r.jobs| ensures !r.jobs[id].status.Queued? {
        if id in q.pending {
          var i :| 0 <= i < |q.pending| && q.pending[i] == id;
          assert i < n ==> q.pending[..n][i] == id;
        }
      }
    }
  }

  lemma ClearedLeavesWaiters(q: Queue, r: Queue, n: nat, status: Status)
    requires PendingIsQueued(q) && DrainHolds(q) && WaitersWait(q) && IsTerminal(status) && n <= |q.pending|
    requires ClearedJobs(q.jobs, r.jobs, q.pending, n, status) && r.drain == q.drain
    ensures WaitersWait(r) <==> !(n < |q.pending| && HasWaiters(q, q.pending[n]))
  {
    if n < |q.pending| && HasWaiters(q, q.pending[n]) {
      var id := q.pending[n];
      assert id in q.pending && id !in q.pending[..n];
      assert r.jobs[id].waiters != [] && !r.jobs[id].status.Queued? && !IsBusyWith(r.drain, id);
    } else {
      forall id | 0 <= id < |r.jobs| && r.jobs[id].waiters != []
        ensures r.jobs[id].status.Queued? || IsBusyWith(r.drain, id)
      {
        assert id !in q.pending[..n] && r.jobs[id] == q.jobs[id];
      }
    }
  }

  lemma ClearedDamages(q: Queue, status: Status, throwsAt: Option<nat>)
    requires PendingIsQueued(q) && DrainHolds(q) && FirstInFirstOut(q) && IsTerminal(status)
    ensures var (r, d) := (Cleared(q, status, throwsAt), ClearingDamage(q, throwsAt));
            Sound(r) && r.pending == [] && r.drain == q.drain && r.closing == q.closing
            && (NoneForgotten(q) ==> (NoneForgotten(r) <==> !d.forgets))
            && (OneRuns(q) ==> OneRuns(r))
            && (WaitersWait(q) ==> (WaitersWait(r) <==> !d.leavesWaiters))
  {
    var (r, n) := (Cleared(q, status, throwsAt), Reached(|q.pending|, throwsAt));
    ClearedAre(q, status, throwsAt);
    ClearedIsSound(q, r, n, status);
    if NoneForgotten(q) {
      ClearedForgets(q, r, n, status);
    }
    if WaitersWait(q) {
      ClearedLeavesWaiters(q, r, n, status);
    }
  }

  /** Stop and close. */
  lemma ClearedOutDamages(q: Queue, closing: bool, throwsAt: Option<nat>)
    requires Sound(q)
    ensures Damaged(q, ClearedOut(q.(closing := closing), throwsAt), ClearingDamage(q, throwsAt))
    ensures ClearedOut(q.(closing := closing), throwsAt).drain == q.drain
    ensures ClearedOut(q.(closing := closing), throwsAt).pending == []
  {
    var open := q.(closing := closing);
    var cleared := Cleared(open, Cancelled, throwsAt);
    assert Orderly(q) ==> NoneForgotten(open) && OneRuns(open) && WaitersWait(open);
    ClearedDamages(open, Cancelled, throwsAt);
    assert Damaged(q, cleared, ClearingDamage(q, throwsAt));
    var running := FindRunning(cleared.jobs);
    if running.Some? {
      AbortedDamages(q, cleared, running.value, ClearingDamage(q, throwsAt));
    }
  }

  /** Telling a job to abort changes no part of the order. */
  lemma AbortedDamages(q: Queue, r: Queue, id: nat, d: Damage)
    requires Damaged(q, r, d) && id < |r.jobs|
    ensures Damaged(q, Aborted(r, id), d)
  {
    var t := Aborted(r, id);
    assert Sound(t);
    assert NoneForgotten(t) <==> NoneForgotten(r) by {
      assert forall x :: 0 <= x < |r.jobs| ==> t.jobs[x].status == r.jobs[x].status;
    }
    assert OneRuns(t) <==> OneRuns(r) by {
      assert forall x :: 0 <= x < |r.jobs| ==> t.jobs[x].status == r.jobs[x].status;
    }
    assert WaitersWait(t) <==> WaitersWait(r) by {
      assert forall x :: 0 <= x < |r.jobs| ==>
        t.jobs[x].status == r.jobs[x].status && t.jobs[x].waiters == r.jobs[x].waiters;
    }
  }

  // ----- The drain -----

  /** Between two jobs of the drain. */
  ghost predicate SoundBetween(q: Queue) {
    PendingIsQueued(q) && FirstInFirstOut(q) && (q.closing ==> q.pending == [])
  }

  /** Nothing runs, and only queued jobs have waiters. */
  ghost predicate OrderlyBetween(q: Queue) {
    NoneForgotten(q)
    && forall id :: 0 <= id < |q.jobs| ==>
         !q.jobs[id].status.Running? && (q.jobs[id].waiters != [] ==> q.jobs[id].status.Queued?)
  }

  lemma TookNextIsSound(q: Queue, throws: bool)
    requires SoundBetween(q)
    ensures Sound(TookNext(q, throws)) && !TookNext(q, throws).drain.Idle?
  {
    if q.pending != [] {
      var (r, id) := (TookNext(q, throws), q.pending[0]);
      assert id in q.pending;
      assert r.pending == q.pending[1..] && Increasing(r.pending) && id !in r.pending;
      assert forall x :: x in r.pending ==> x in q.pending;
      assert q.started != [] ==> q.started[|q.started| - 1] in q.started;
      AppendStarted(q.started, id);
      assert PendingIsQueued(r) && DrainHolds(r);
      assert FirstInFirstOut(r);
    }
  }

  lemma TookNextParts(q: Queue, throws: bool)
    requires SoundBetween(q) && OrderlyBetween(q)
    ensures var (r, d) := (TookNext(q, throws), StartDamage(q, throws));
            NoneForgotten(r) && (OneRuns(r) <==> !d.leavesRunning) && (WaitersWait(r) <==> !d.leavesWaiters)
  {
    if q.pending != [] {
      var (r, id) := (TookNext(q, throws), q.pending[0]);
      assert id in q.pending && q.pending == [id] + q.pending[1..];
      assert r.jobs[id].status.Running? && r.jobs[id].waiters == q.jobs[id].waiters;
      assert forall x :: 0 <= x < |q.jobs| && x != id ==> r.jobs[x] == q.jobs[x];
    }
  }

  lemma TookNextDamages(q: Queue, s: Queue, throws: bool)
    requires SoundBetween(s) && (Orderly(q) ==> OrderlyBetween(s))
    ensures Damaged(q, TookNext(s, throws), StartDamage(s, throws))
  {
    TookNextIsSound(s, throws);
    if Orderly(q) {
      TookNextParts(s, throws);
    }
  }

  /** The job inside the drain ends. */
  lemma EndedBetween(q: Queue, id: nat, status: Status, throws: bool)
    requires Sound(q) && id < |q.jobs| && IsBusyWith(q.drain, id) && IsTerminal(status)
    ensures SoundBetween(Ended(q, id, status, throws))
    ensures Orderly(q) && !(throws && HasWaiters(q, id)) ==> OrderlyBetween(Ended(q, id, status, throws))
  {
    var r := Ended(q, id, status, throws);
    assert PendingIsQueued(r) && FirstInFirstOut(r);
    if Orderly(q) && !(throws && HasWaiters(q, id)) {
      assert forall x :: 0 <= x < |q.jobs| && x != id ==> r.jobs[x] == q.jobs[x] && !IsBusyWith(q.drain, x);
    }
  }

  /** An exception ends the drain after a job. */
  lemma EndedDamages(q: Queue, id: nat, status: Status, throws: bool)
    requires Sound(q) && id < |q.jobs| && IsBusyWith(q.drain, id) && IsTerminal(status)
    ensures Damaged(q, Ended(q, id, status, throws).(drain := Returned),
                    NO_DAMAGE.(leavesWaiters := throws && HasWaiters(q, id)))
  {
    var ended := Ended(q, id, status, throws);
    var r := ended.(drain := Returned);
    EndedBetween(q, id, status, throws);
    assert Sound(r);
    if Orderly(q) {
      assert forall x :: 0 <= x < |q.jobs| && x != id ==> r.jobs[x] == q.jobs[x] && !IsBusyWith(q.drain, x);
      assert NoneForgotten(r) && OneRuns(r);
      WaitersAfterEnd(q, r, id, status, throws);
    }
  }

  lemma AfterRunDamages(q: Queue, id: nat, status: Status, raised: bool, endThrows: bool, startThrows: bool)
    requires Sound(q) && id < |q.jobs| && IsBusyWith(q.drain, id) && IsTerminal(status)
    ensures Damaged(q, AfterRun(q, id, status, raised, endThrows, startThrows),
                    EndDamage(q, id, raised, endThrows, startThrows))
  {
    if endThrows || raised {
      EndedDamages(q, id, status, endThrows);
    } else {
      var settled := Settled(q, id, status);
      EndedBetween(q, id, status, false);
      TookNextDamages(q, settled, startThrows);
      assert StartDamage(settled, startThrows) == StartDamage(q, startThrows) by {
        assert q.pending != [] ==> q.pending[0] in q.pending;
      }
    }
  }

  lemma PreparedDamages(q: Queue, e: Event, maxPending: nat)
    requires Sound(q) && q.drain.Preparing? && e.DirectoriesReady?
    ensures Damaged(q, Step(q, e, maxPending), DamageOf(q, e, maxPending))
  {
    if e.ok {
      assert Orderly(q) ==> OrderlyBetween(q);
      TookNextDamages(q, q, e.startThrows);
    } else {
      var failed := Cleared(q, Failed, e.throwsAt);
      ClearedDamages(q, Failed, e.throwsAt);
      assert Sound(failed.(drain := Returned));
      if Orderly(q) {
        assert NoneForgotten(failed.(drain := Returned)) <==> NoneForgotten(failed);
        assert OneRuns(failed.(drain := Returned)) <==> OneRuns(failed);
        assert WaitersWait(failed.(drain := Returned)) <==> WaitersWait(failed);
      }
    }
  }

  /** A run has its outcome, and the browser is still to be stopped. */
  lemma OutcomeDamages(q: Queue, id: nat, outcome: Status, raised: bool)
    requires Sound(q) && q.drain == Executing(id) && IsTerminal(outcome)
    ensures Damaged(q, Unanswered(q, id, outcome).(drain := Stopping(id, raised)), NO_DAMAGE)
  {
    var r := Unanswered(q, id, outcome).(drain := Stopping(id, raised));
    assert Sound(r);
    assert forall x :: 0 <= x < |q.jobs| && x != id ==> r.jobs[x] == q.jobs[x];
  }

  lemma SettlesDamages(q: Queue)
    requires Sound(q) && q.drain.Returned?
    ensures Damaged(q, q.(drain := if q.pending != [] && !q.closing then Preparing else Idle), NO_DAMAGE)
  {
  }

  /** Every step keeps the queue sound, and breaks of its order exactly what the exceptions of listeners break. */
  lemma StepDamages(q: Queue, e: Event, maxPending: nat)
    requires Sound(q)
    ensures Damaged(q, Step(q, e, maxPending), DamageOf(q, e, maxPending))
  {
    match e
    case Enqueue(accountId, validTask, throws) => EnqueuedDamages(q, accountId, validTask, throws, maxPending);
    case Cancel(id, accountId, throws) => CancelledDamages(q, id, accountId, throws, maxPending);
    case Wait(id, accountId) => SameOrder(q, Waited(q, id, accountId).0);
    case Stop(throwsAt) => ClearedOutDamages(q, q.closing, throwsAt);
    case Close(throwsAt) => ClearedOutDamages(q, true, throwsAt);
    case DirectoriesReady(_, _, _) =>
      if q.drain.Preparing? {
        PreparedDamages(q, e, maxPending);
      }
    case RunEnds(outcome, browserStarted, errorThrows, endThrows, startThrows) =>
      if q.drain.Executing? && IsTerminal(outcome) {
        var (id, raised) := (q.drain.job, Raises(outcome, errorThrows));
        if browserStarted {
          OutcomeDamages(q, id, outcome, raised);
        } else {
          AfterRunDamages(q, id, outcome, raised, endThrows, startThrows);
        }
      }
    case BrowserStopped(ok, endThrows, startThrows) =>
      if q.drain.Stopping? {
        var id := q.drain.job;
        AfterRunDamages(q, id, if ok then q.jobs[id].status else Failed, q.drain.raised, endThrows, startThrows);
      }
    case DrainSettles =>
      if q.drain.Returned? {
        SettlesDamages(q);
      }
  }

  /** The order is kept by a step exactly when no exception of a listener breaks a part of it. */
  lemma StepKeepsOrderIff(q: Queue, e: Event, maxPending: nat)
    requires Orderly(q)
    ensures Orderly(Step(q, e, maxPending)) <==> DamageOf(q, e, maxPending) == NO_DAMAGE
  {
    StepDamages(q, e, maxPending);
  }

  // ----- Every run -----

  lemma {:induction false} RunKeepsInv(q: Queue, events: seq<Event>, maxPending: nat)
    requires Inv(q, maxPending)
    ensures Inv(Run(q, events, maxPending), maxPending)
    decreases |events|
  {
    if events != [] {
      StepKeepsTally(q, events[0], maxPending);
      StepDamages(q, events[0], maxPending);
      RunKeepsInv(Step(q, events[0], maxPending), events[1..], maxPending);
    }
  }

  /** The queue is in order before and after every event. */
  ghost predicate OrderlyThroughout(q: Queue, events: seq<Event>, maxPending: nat)
    decreases |events|
  {
    Orderly(q) && (events == [] || OrderlyThroughout(Step(q, events[0], maxPending), events[1..], maxPending))
  }

  predicate NoneDamages(q: Queue, events: seq<Event>, maxPending: nat)
    decreases |events|
  {
    events == []
    || (DamageOf(q, events[0], maxPending) == NO_DAMAGE
        && NoneDamages(Step(q, events[0], maxPending), events[1..], maxPending))
  }

  lemma {:induction false} OrderlyThroughoutIff(q: Queue, events: seq<Event>, maxPending: nat)
    requires Orderly(q)
    ensures OrderlyThroughout(q, events, maxPending) <==> NoneDamages(q, events, maxPending)
    decreases |events|
  {
    if events != [] {
      var next := Step(q, events[0], maxPending);
      StepKeepsOrderIff(q, events[0], maxPending);
      if Orderly(next) {
        OrderlyThroughoutIff(next, events[1..], maxPending);
      }
    }
  }

  lemma NewQueueHolds(maxPending: nat)
    ensures Orderly(NEW_QUEUE) && Tallied(NEW_QUEUE, maxPending)
  {
    forall w: nat ensures Accounted(NEW_QUEUE, w) {
    }
  }

  /** Queue correctness over every run, whatever listeners do; and the order is kept throughout exactly when none of
      their exceptions damages it. */
  lemma QueueCorrect(events: seq<Event>, maxPending: nat)
    ensures Inv(Run(NEW_QUEUE, events, maxPending), maxPending)
    ensures OrderlyThroughout(NEW_QUEUE, events, maxPending) <==> NoneDamages(NEW_QUEUE, events, maxPending)
  {
    NewQueueHolds(maxPending);
    RunKeepsInv(NEW_QUEUE, events, maxPending);
    OrderlyThroughoutIff(NEW_QUEUE, events, maxPending);
  }

  /** No listener throws during the event. */
  predicate IsQuiet(e: Event) {
    match e
    case Enqueue(_, _, throws) => !throws
    case Cancel(_, _, throws) => !throws
    case Wait(_, _) => true
    case Stop(throwsAt) => throwsAt.None?
    case Close(throwsAt) => throwsAt.None?
    case DirectoriesReady(_, throwsAt, startThrows) => throwsAt.None? && !startThrows
    case RunEnds(_, _, errorThrows, endThrows, startThrows) => !errorThrows && !endThrows && !startThrows
    case BrowserStopped(_, endThrows, startThrows) => !endThrows && !startThrows
    case DrainSettles => true
  }

  lemma {:induction false} QuietRunDamagesNothing(q: Queue, events: seq<Event>, maxPending: nat)
    requires forall e :: e in events ==> IsQuiet(e)
    ensures NoneDamages(q, events, maxPending)
    decreases |events|
  {
    if events != [] {
      assert IsQuiet(events[0]);
      QuietRunDamagesNothing(Step(q, events[0], maxPending), events[1..], maxPending);
    }
  }

  /** The failing case: one job is added while a listener throws, and it is pending with no drain. */
  lemma EnqueueCanStrand(accountId: string, maxPending: nat)
    requires maxPending > 0
    ensures var q := Run(NEW_QUEUE, [Enqueue(accountId, true, true)], maxPending);
            q.pending == [0] && q.drain.Idle? && q.jobs == [Job(accountId, Queued, false, [])]
  {
    var events := [Enqueue(accountId, true, true)];
    assert events[1..] == [];
  }

  lemma RunOfThree(q: Queue, a: Event, b: Event, c: Event, maxPending: nat)
    ensures Run(q, [a, b, c], maxPending)
         == Step(Step(Step(q, a, maxPending), b, maxPending), c, maxPending)
  {
    var one := Step(q, a, maxPending);
    assert [a, b, c][1..] == [b, c] && [b, c][1..] == [c] && [c][1..] == [];
    assert Run(q, [a, b, c], maxPending) == Run(one, [b, c], maxPending);
    assert Run(one, [b, c], maxPending) == Run(Step(one, b, maxPending), [c], maxPending);
  }

  lemma TwoActive(a: Job, b: Job)
    ensures ActiveCount([a]) == Weight(a) && ActiveCount([a, b]) == Weight(a) + Weight(b)
  {
    assert [a, b][..1] == [a] && [a][..0] == [];
  }

  lemma StopAtFirst(q: Queue, id: nat, behind: nat)
    requires id < |q.jobs| && q.pending == [id, behind]
    ensures ClearedOut(q, Some(0)) == Unanswered(q.(pending := []), id, Cancelled)
  {
    assert [id, behind][..0] == [];
  }

  /** Queued, and in no list. */
  predicate IsForgotten(q: Queue, id: nat) {
    id < |q.jobs| && q.jobs[id].status.Queued? && id !in q.pending
  }

  lemma TookNextForgets(q: Queue, id: nat, throws: bool)
    requires SoundBetween(q) && IsForgotten(q, id)
    ensures IsForgotten(TookNext(q, throws), id)
  {
    if q.pending != [] {
      assert q.pending[0] in q.pending;
    }
  }

  lemma ClearedStillForgets(q: Queue, id: nat, status: Status, throwsAt: Option<nat>)
    requires PendingIsQueued(q) && IsForgotten(q, id)
    ensures IsForgotten(Cleared(q, status, throwsAt), id)
  {
    var (ids, n) := (q.pending, Reached(|q.pending|, throwsAt));
    ClearedAre(q, status, throwsAt);
    assert forall x :: x in ids[..n] ==> x in ids;
    assert n < |ids| ==> ids[n] in ids;
  }

  lemma CancelledStillForgets(q: Queue, id: nat, other: nat, accountId: string, throws: bool)
    requires PendingIsQueued(q) && IsForgotten(q, id) && other != id
    ensures IsForgotten(CancelledJob(q, other, accountId, throws).0, id)
  {
    WithoutOne(q.pending, other);
  }

  lemma AfterRunForgets(q: Queue, id: nat, job: nat, status: Status, raised: bool, endThrows: bool, startThrows: bool)
    requires Sound(q) && IsForgotten(q, id) && job < |q.jobs| && IsBusyWith(q.drain, job) && IsTerminal(status)
    ensures IsForgotten(AfterRun(q, job, status, raised, endThrows, startThrows), id)
  {
    if !(endThrows || raised) {
      EndedBetween(q, job, status, false);
      TookNextForgets(Settled(q, job, status), id, startThrows);
    }
  }

  /** Nothing but its own cancellation ever touches a forgotten job. */
  lemma StillForgotten(q: Queue, id: nat, e: Event, maxPending: nat)
    requires Sound(q) && IsForgotten(q, id) && !(e.Cancel? && e.job == id)
    ensures IsForgotten(Step(q, e, maxPending), id)
  {
    match e
    case Cancel(other, accountId, throws) => CancelledStillForgets(q, id, other, accountId, throws);
    case Stop(throwsAt) => ClearedStillForgets(q, id, Cancelled, throwsAt);
    case Close(throwsAt) => ClearedStillForgets(q.(closing := true), id, Cancelled, throwsAt);
    case DirectoriesReady(_, throwsAt, startThrows) =>
      ClearedStillForgets(q, id, Failed, throwsAt);
      TookNextForgets(q, id, startThrows);
    case RunEnds(outcome, browserStarted, errorThrows, endThrows, startThrows) =>
      if q.drain.Executing? && IsTerminal(outcome) && !browserStarted {
        AfterRunForgets(q, id, q.drain.job, outcome, Raises(outcome, errorThrows), endThrows, startThrows);
      }
    case BrowserStopped(ok, endThrows, startThrows) =>
      if q.drain.Stopping? {
        var status := if ok then q.jobs[q.drain.job].status else Failed;
        AfterRunForgets(q, id, q.drain.job, status, q.drain.raised, endThrows, startThrows);
      }
    case _ =>
  }

  /** A forgotten job stays queued, and counts against the limit, over every run that does not cancel it. */
  lemma {:induction false} ForgottenForGood(q: Queue, id: nat, events: seq<Event>, maxPending: nat)
    requires Sound(q) && IsForgotten(q, id)
    requires forall e :: e in events ==> !(e.Cancel? && e.job == id)
    ensures IsForgotten(Run(q, events, maxPending), id)
    decreases |events|
  {
    if events != [] {
      assert events[0] in events && forall e :: e in events[1..] ==> e in events;
      StillForgotten(q, id, events[0], maxPending);
      StepDamages(q, events[0], maxPending);
      ForgottenForGood(Step(q, events[0], maxPending), id, events[1..], maxPending);
    }
  }

  /** Another: two jobs are cancelled by a stop, a listener throws at the first, and the second is forgotten, and
      counted against the limit. */
  lemma StopCanForget(accountId: string, maxPending: nat)
    requires maxPending > 1
    ensures var add := Enqueue(accountId, true, false);
            var q := Run(NEW_QUEUE, [add, add, Stop(Some(0))], maxPending);
            IsForgotten(q, 1) && ActiveCount(q.jobs) == 1
  {
    var (add, job) := (Enqueue(accountId, true, false), Job(accountId, Queued, false, []));
    RunOfThree(NEW_QUEUE, add, add, Stop(Some(0)), maxPending);
    TwoActive(job, job);
    var one := Step(NEW_QUEUE, add, maxPending);
    assert one.jobs == [job] && one.pending == [0];
    var two := Step(one, add, maxPending);
    assert two.jobs == [job, job] && two.pending == [0, 1];
    StopAtFirst(two, 0, 1);
    TwoActive(job.(status := Cancelled), job);
  }

  // ----- The drain reaches every job -----

  /** What the drain may be told next, and at which publications listeners throw. */
  datatype Reply = Reply(ok: bool, outcome: Status, browserStarted: bool, throwsAt: Option<nat>, errorThrows: bool,
                         endThrows: bool, startThrows: bool)

  function AnswerOf(q: Queue, reply: Reply): Event {
    match q.drain
    case Preparing => DirectoriesReady(reply.ok, reply.throwsAt, reply.startThrows)
    case Executing(_) =>
      RunEnds(reply.outcome, reply.browserStarted, reply.errorThrows, reply.endThrows, reply.startThrows)
    case Stopping(_, _) => BrowserStopped(reply.ok, reply.endThrows, reply.startThrows)
    case _ => DrainSettles
  }

  /** Steps the drain still has to take at most, or would have to if it were scheduled. */
  function Remaining(q: Queue): nat {
    match q.drain
    case Idle => 4 * |q.pending|
    case Returned => if q.pending == [] then 1 else 4 * |q.pending| + 3
    case Preparing => 4 * |q.pending| + 2
    case Stopping(_, _) => 4 * |q.pending| + 4
    case Executing(_) => 4 * |q.pending| + 5
  }

  /** The event is what the drain waits for. */
  predicate Moves(q: Queue, e: Event) {
    match q.drain
    case Idle => false
    case Preparing => e.DirectoriesReady?
    case Executing(_) => e.RunEnds? && IsTerminal(e.outcome)
    case Stopping(_, _) => e.BrowserStopped?
    case Returned => e.DrainSettles?
  }

  /** Taking the next job takes it off the pending list. */
  lemma TookNextAdvances(q: Queue, throws: bool)
    requires SoundBetween(q)
    ensures Remaining(TookNext(q, throws)) <= 4 * |q.pending| + 1
    ensures !TookNext(q, throws).drain.Idle?
  {
    if q.pending != [] {
      assert q.pending[0] in q.pending;
    }
  }

  lemma AfterRunAdvances(q: Queue, id: nat, status: Status, raised: bool, endThrows: bool, startThrows: bool)
    requires Sound(q) && id < |q.jobs| && IsBusyWith(q.drain, id) && IsTerminal(status)
    ensures var r := AfterRun(q, id, status, raised, endThrows, startThrows);
            Remaining(r) <= 4 * |q.pending| + 3 && !r.drain.Idle?
  {
    EndedBetween(q, id, status, false);
    TookNextAdvances(Settled(q, id, status), startThrows);
  }

  /** Whatever the drain waits for brings it forward, and it never goes idle with jobs pending. */
  lemma DrainAdvances(q: Queue, e: Event, maxPending: nat)
    requires Sound(q) && Moves(q, e)
    ensures Remaining(Step(q, e, maxPending)) < Remaining(q)
    ensures NoneStranded(Step(q, e, maxPending))
  {
    match e
    case DirectoriesReady(ok, throwsAt, startThrows) =>
      if ok {
        TookNextAdvances(q, startThrows);
      } else {
        ClearedAre(q, Failed, throwsAt);
      }
    case RunEnds(outcome, browserStarted, errorThrows, endThrows, startThrows) =>
      AfterRunAdvances(q, q.drain.job, outcome, Raises(outcome, errorThrows), endThrows, startThrows);
    case BrowserStopped(ok, endThrows, startThrows) =>
      var status := if ok then q.jobs[q.drain.job].status else Failed;
      AfterRunAdvances(q, q.drain.job, status, q.drain.raised, endThrows, startThrows);
    case DrainSettles =>
  }

  lemma {:induction false} WithoutIsNoLonger(ids: seq<nat>, id: nat)
    ensures |Without(ids, id)| <= |ids|
  {
    if ids != [] {
      WithoutIsNoLonger(ids[1..], id);
    }
  }

  /** Only a new job puts the end of the drain off, by at most six steps. */
  lemma StepCosts(q: Queue, e: Event, maxPending: nat)
    requires Sound(q)
    ensures Remaining(Step(q, e, maxPending)) + (if Moves(q, e) then 1 else 0)
         <= Remaining(q) + (if e.Enqueue? then 6 else 0)
  {
    match e
    case Cancel(id, accountId, throws) => WithoutIsNoLonger(q.pending, id);
    case Stop(throwsAt) => ClearedOutDamages(q, q.closing, throwsAt);
    case Close(throwsAt) => ClearedOutDamages(q, true, throwsAt);
    case _ =>
      if Moves(q, e) {
        DrainAdvances(q, e, maxPending);
      }
  }

  function Enqueues(events: seq<Event>): nat {
    if events == [] then 0 else (if events[0].Enqueue? then 1 else 0) + Enqueues(events[1..])
  }

  function Moved(q: Queue, events: seq<Event>, maxPending: nat): nat
    decreases |events|
  {
    if events == [] then 0
    else (if Moves(q, events[0]) then 1 else 0) + Moved(Step(q, events[0], maxPending), events[1..], maxPending)
  }

  /** Over any run the drain takes at most six steps for every new job besides those it still had to take. */
  lemma {:induction false} RunCosts(q: Queue, events: seq<Event>, maxPending: nat)
    requires Sound(q)
    ensures Remaining(Run(q, events, maxPending)) + Moved(q, events, maxPending) <= Remaining(q) + 6 * Enqueues(events)
    decreases |events|
  {
    if events != [] {
      var next := Step(q, events[0], maxPending);
      StepCosts(q, events[0], maxPending);
      StepDamages(q, events[0], maxPending);
      RunCosts(next, events[1..], maxPending);
    }
  }

  /** The answers the drain gets while it is left alone, from its `from`-th wait on, until it is idle. */
  function Told(q: Queue, replies: nat -> Reply, from: nat, maxPending: nat, steps: nat): seq<Event>
    decreases steps
  {
    if steps == 0 then []
    else
      var answer := AnswerOf(q, replies(from));
      [answer] + Told(Step(q, answer, maxPending), replies, from + 1, maxPending, steps - 1)
  }

  /** The drain is idle, every job has ended, and nobody waits. */
  ghost predicate AllEnded(q: Queue) {
    q.drain.Idle? && q.pending == []
    && forall id :: 0 <= id < |q.jobs| ==> IsTerminal(q.jobs[id].status) && q.jobs[id].waiters == []
  }

  lemma IdleIsAllEnded(q: Queue)
    requires Orderly(q) && q.drain.Idle?
    ensures AllEnded(q)
  {
    forall id | 0 <= id < |q.jobs| ensures IsTerminal(q.jobs[id].status) && q.jobs[id].waiters == [] {
      assert !q.jobs[id].status.Queued? by {
        assert id !in q.pending;
      }
      assert !IsBusyWith(q.drain, id);
    }
  }

  /** From any reachable state in which pending jobs have a drain, left alone, whatever the drain is told and
      whoever throws, it goes idle with nothing pending; and if the state is in order and no exception damages it,
      with every job ended and every waiter answered. */
  lemma {:induction false} NothingStranded(q: Queue, replies: nat -> Reply, from: nat, maxPending: nat)
      returns (steps: nat)
    requires Sound(q) && NoneStranded(q) && forall i :: IsTerminal(replies(i).outcome)
    ensures var told := Told(q, replies, from, maxPending, steps);
            var end := Run(q, told, maxPending);
            steps <= Remaining(q) && end.drain.Idle? && end.pending == []
            && (Orderly(q) && NoneDamages(q, told, maxPending) ==> AllEnded(end))
    decreases Remaining(q)
  {
    if q.drain.Idle? {
      steps := 0;
      if Orderly(q) {
        IdleIsAllEnded(q);
      }
    } else {
      var answer := AnswerOf(q, replies(from));
      var next := Step(q, answer, maxPending);
      DrainAdvances(q, answer, maxPending);
      StepDamages(q, answer, maxPending);
      var more := NothingStranded(next, replies, from + 1, maxPending);
      steps := more + 1;
      ToldFirst(q, replies, from, maxPending, steps);
    }
  }

  lemma ToldFirst(q: Queue, replies: nat -> Reply, from: nat, maxPending: nat, steps: nat)
    requires steps > 0
    ensures var (told, answer) := (Told(q, replies, from, maxPending, steps), AnswerOf(q, replies(from)));
            var next := Step(q, answer, maxPending);
            var rest := Told(next, replies, from + 1, maxPending, steps - 1);
            Run(q, told, maxPending) == Run(next, rest, maxPending)
            && (NoneDamages(q, told, maxPending)
                <==> DamageOf(q, answer, maxPending) == NO_DAMAGE && NoneDamages(next, rest, maxPending))
  {
    var answer := AnswerOf(q, replies(from));
    var rest := Told(Step(q, answer, maxPending), replies, from + 1, maxPending, steps - 1);
    assert Told(q, replies, from, maxPending, steps) == [answer] + rest;
    assert ([answer] + rest)[1..] == rest;
  }

  // ----- The object -----

  lemma {:induction false} SettledAllAppend(q: Queue, ids: seq<nat>, id: nat, status: Status)
    ensures var settled := SettledAll(q, ids, status);
            SettledAll(q, ids + [id], status) == if id < |q.jobs| then Settled(settled, id, status) else settled
    decreases |ids|
  {
    var all := ids + [id];
    if ids == [] {
      assert all[1..] == [];
    } else {
      assert all[1..] == ids[1..] + [id];
      SettledAllAppend(if ids[0] < |q.jobs| then Settled(q, ids[0], status) else q, ids[1..], id, status);
    }
  }

  lemma ClearedWhen(q: Queue, status: Status, throwsAt: Option<nat>, n: nat)
    requires n == Reached(|q.pending|, throwsAt)
    ensures var settled := SettledAll(q.(pending := []), q.pending[..n], status);
            Cleared(q, status, throwsAt)
            == if n < |q.pending| && q.pending[n] < |q.jobs| then Ended(settled, q.pending[n], status, true)
               else settled
  {
  }

  lemma SettledOneMore(q: Queue, ids: seq<nat>, i: nat, status: Status)
    requires i < |ids|
    ensures var settled := SettledAll(q, ids[..i], status);
            SettledAll(q, ids[..i + 1], status)
            == if ids[i] < |q.jobs| then Settled(settled, ids[i], status) else settled
  {
    assert ids[..i + 1] == ids[..i] + [ids[i]];
    SettledAllAppend(q, ids[..i], ids[i], status);
  }

  class BrowserService {
    const maxPending: nat
    var jobs: seq<Job>
    var pending: seq<nat>
    var draining: Drain
    var closing: bool
    var waitersMade: nat
    var answers: seq<Answer>
    var started: seq<nat>

    constructor (maxPending: nat)
      ensures this.maxPending == maxPending && Current() == NEW_QUEUE
    {
      this.maxPending := maxPending;
      jobs, pending, draining, closing := [], [], Idle, false;
      waitersMade, answers, started := 0, [], [];
    }

    function Current(): Queue
      reads this
    {
      Queue(jobs, pending, draining, closing, waitersMade, answers, started)
    }

    /** `throws` says that a listener throws when the new job is published. */
    method EnqueueJob(accountId: string, validTask: bool, throws: bool) returns (error: Option<Error>)
      modifies this
      ensures (Current(), error) == Enqueued(old(Current()), accountId, validTask, throws, maxPending)
    {
      if closing {
        return Some(Closed);
      }
      var activeCount := 0;
      for i := 0 to |jobs|
        modifies {}
        invariant activeCount == ActiveCount(jobs[..i])
      {
        assert jobs[..i + 1][..i] == jobs[..i];
        if jobs[i].status.Queued? || jobs[i].status.Running? {
          activeCount := activeCount + 1;
        }
      }
      assert jobs[..|jobs|] == jobs;
      if activeCount >= maxPending {
        return Some(QueueFull);
      }
      if !validTask {
        return Some(InvalidTask);
      }
      pending := pending + [|jobs|];
      jobs := jobs + [Job(accountId, Queued, false, [])];
      if throws {
        return Some(Thrown);
      }
      if draining.Idle? {
        draining := Preparing;
      }
      return None;
    }

    method CancelJob(id: nat, accountId: string, throws: bool) returns (cancelled: Result<bool, Error>)
      modifies this
      ensures (Current(), cancelled) == CancelledJob(old(Current()), id, accountId, throws)
    {
      if id >= |jobs| || jobs[id].accountId != accountId || IsTerminal(jobs[id].status) {
        return Ok(false);
      }
      if jobs[id].status.Queued? {
        pending := Without(pending, id);
        End(id, Cancelled, throws);
        if throws {
          return Err(Thrown);
        }
      } else {
        jobs := jobs[id := jobs[id].(aborted := true)];
      }
      return Ok(true);
    }

    /** The job ends with a status; unless a listener throws at that, its waiters are answered. */
    method End(id: nat, status: Status, throws: bool)
      requires id < |jobs|
      modifies this`jobs, this`answers
      ensures Current() == Ended(old(Current()), id, status, throws)
    {
      jobs := jobs[id := jobs[id].(status := status)];
      if throws {
        return;
      }
      var waiters := jobs[id].waiters;
      jobs := jobs[id := jobs[id].(waiters := [])];
      answers := answers + Answers(waiters, id, status);
    }

    method WaitFor(id: nat, accountId: string) returns (error: Option<Error>)
      modifies this
      ensures (Current(), error) == Waited(old(Current()), id, accountId)
    {
      if id >= |jobs| || jobs[id].accountId != accountId {
        return Some(NotFound);
      }
      if IsTerminal(jobs[id].status) {
        answers := answers + [Answer(waitersMade, id, jobs[id].status)];
      } else {
        jobs := jobs[id := jobs[id].(waiters := jobs[id].waiters + [waitersMade])];
      }
      waitersMade := waitersMade + 1;
      return None;
    }

    /** Takes everything off the queue and ends it, one job after the other, until a listener throws. */
    method ClearPending(status: Status, throwsAt: Option<nat>) returns (threw: bool)
      modifies this`jobs, this`answers, this`pending
      ensures Current() == Cleared(old(Current()), status, throwsAt)
      ensures threw <==> Reached(|old(pending)|, throwsAt) < |old(pending)|
    {
      var taken := pending;
      pending := [];
      ghost var before := old(Current());
      ghost var base := Current();
      var i := 0;
      while i < |taken|
        invariant i <= Reached(|taken|, throwsAt) && pending == [] && |jobs| == |base.jobs|
        invariant Current() == SettledAll(base, taken[..i], status)
      {
        var throws := throwsAt == Some(i);
        if taken[i] < |jobs| {
          End(taken[i], status, throws);
        }
        if throws {
          ClearedWhen(before, status, throwsAt, i);
          return true;
        }
        SettledOneMore(base, taken, i, status);
        i := i + 1;
      }
      ClearedWhen(before, status, throwsAt, i);
      return false;
    }

    method StopRequested(throwsAt: Option<nat>)
      modifies this
      ensures Current() == Step(old(Current()), Event.Stop(throwsAt), maxPending)
    {
      var threw := ClearPending(Cancelled, throwsAt);
      if threw {
        return;
      }
      var running := FindRunning(jobs);
      if running.Some? {
        jobs := jobs[running.value := jobs[running.value].(aborted := true)];
      }
    }

    method CloseRequested(throwsAt: Option<nat>)
      modifies this
      ensures Current() == Step(old(Current()), Event.Close(throwsAt), maxPending)
    {
      if closing {
        return;
      }
      closing := true;
      var threw := ClearPending(Cancelled, throwsAt);
      if threw {
        return;
      }
      var running := FindRunning(jobs);
      if running.Some? {
        jobs := jobs[running.value := jobs[running.value].(aborted := true)];
      }
    }

    /** The drain loop from its head up to the next await, its return, or an exception. */
    method DrainLoop(throws: bool)
      modifies this
      ensures Current() == TookNext(old(Current()), throws)
    {
      ghost var goal := TookNext(Current(), throws);
      while !closing && pending != []
        invariant TookNext(Current(), throws) == goal
        decreases |pending|
      {
        var id := pending[0];
        pending := pending[1..];
        if id < |jobs| && jobs[id].status.Queued? {
          jobs := jobs[id := jobs[id].(status := Running)];
          started := started + [id];
          draining := if throws then Returned else Executing(id);
          return;
        }
      }
      draining := Returned;
    }

    method DirectoriesPrepared(ok: bool, throwsAt: Option<nat>, startThrows: bool)
      requires draining.Preparing?
      modifies this
      ensures Current() == Step(old(Current()), DirectoriesReady(ok, throwsAt, startThrows), maxPending)
    {
      if ok {
        DrainLoop(startThrows);
      } else {
        var threw := ClearPending(Failed, throwsAt);
        draining := Returned;
      }
    }

    /** The end of a run, from the report of its error on. */
    method RunEnded(outcome: Status, browserStarted: bool, errorThrows: bool, endThrows: bool, startThrows: bool)
      requires draining.Executing? && draining.job < |jobs| && IsTerminal(outcome)
      modifies this
      ensures Current()
           == Step(old(Current()), RunEnds(outcome, browserStarted, errorThrows, endThrows, startThrows), maxPending)
    {
      var id := draining.job;
      var raised := errorThrows && !outcome.Succeeded?;
      if browserStarted {
        jobs := jobs[id := jobs[id].(status := outcome)];
        draining := Stopping(id, raised);
      } else {
        Finish(id, outcome, raised, endThrows, startThrows);
      }
    }

    /** The last part of a run: its end is published, its waiters are answered, and the drain goes on or throws. */
    method Finish(id: nat, status: Status, raised: bool, endThrows: bool, startThrows: bool)
      requires id < |jobs|
      modifies this
      ensures Current() == AfterRun(old(Current()), id, status, raised, endThrows, startThrows)
    {
      End(id, status, endThrows);
      if endThrows || raised {
        draining := Returned;
      } else {
        DrainLoop(startThrows);
      }
    }

    method BrowserHasStopped(ok: bool, endThrows: bool, startThrows: bool)
      requires draining.Stopping? && draining.job < |jobs|
      modifies this
      ensures Current() == Step(old(Current()), BrowserStopped(ok, endThrows, startThrows), maxPending)
    {
      var id := draining.job;
      Finish(id, if ok then jobs[id].status else Failed, draining.raised, endThrows, startThrows);
    }

    method DrainSettled()
      requires draining.Returned?
      modifies this
      ensures Current() == Step(old(Current()), DrainSettles, maxPending)
    {
      draining := if pending != [] && !closing then Preparing else Idle;
    }
  }
}
