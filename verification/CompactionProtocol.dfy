/** From an applied compaction to its announcement (packages/dsh-luban-context/src/engine.ts, src/archive.ts). */
module CompactionProtocol {
  import opened Wrappers
  import opened Text
  import Compaction
  import opened Strategies

  // ----- Session keys -----

  /** The account's length, a colon, the account and the session: no two owners share a key. */
  function OwnedSessionKey(accountId: string, sessionId: string): string {
    Decimal(|accountId|) + ":" + accountId + sessionId
  }

  lemma {:induction false} DigitsBeforeColon(a: string, b: string, s: string, t: string)
    requires ':' !in a && ':' !in b && a + ":" + s == b + ":" + t
    ensures a == b && s == t
  {
    var (x, y) := (a + ":" + s, b + ":" + t);
    assert a != "" ==> x[0] == a[0] && a[0] in a;
    assert b != "" ==> y[0] == b[0] && b[0] in b;
    if a == "" {
      assert x[1..] == s && y[1..] == t;
    } else {
      assert x[1..] == a[1..] + ":" + s && y[1..] == b[1..] + ":" + t;
      DigitsBeforeColon(a[1..], b[1..], s, t);
      assert a == [a[0]] + a[1..] && b == [b[0]] + b[1..];
    }
  }

  lemma OwnedSessionKeyInjective(a: string, s: string, b: string, t: string)
    requires OwnedSessionKey(a, s) == OwnedSessionKey(b, t)
    ensures a == b && s == t
  {
    assert OwnedSessionKey(a, s) == Decimal(|a|) + ":" + (a + s);
    assert OwnedSessionKey(b, t) == Decimal(|b|) + ":" + (b + t);
    DigitsBeforeColon(Decimal(|a|), Decimal(|b|), a + s, b + t);
    DecimalInjective(|a|, |b|);
    assert a == (a + s)[..|a|] && b == (b + t)[..|b|];
    assert s == (a + s)[|a|..] && t == (b + t)[|b|..];
  }

  // ----- One session's part of the engine: one atomic step between two awaits at a time -----

  /** What an audit record says beside the two surfaces. */
  datatype Details = Details(at: int, strategyId: string, beforeTokens: int, afterTokens: int,
                             archiveFiles: seq<string>, plan: Plan)

  datatype Audit = Audit(details: Details, before: seq<nat>, after: seq<nat>)

  /** An applied compaction that is not announced yet. */
  datatype Pending = Pending(audit: Audit, auditPersisted: bool)

  /** Where the call in flight stands: executing a strategy, awaiting recordAudit, or emitting the event. */
  datatype Stage = Idle | Executing | Recording | Emitting

  datatype EngineSession = EngineSession(
    stage: Stage,                 // of the one call that may be in flight
    rounds: nat,                  // counted calls since the last compaction
    pending: Option<Pending>,
    nodes: seq<nat>, nextSeq: nat,
    log: seq<Audit>,              // the audit file
    announced: seq<Audit>,        // events whose emission returned
    applied: seq<Audit>,          // every compaction applied, oldest first
    counted: nat,                 // counted calls so far
    appliedAt: seq<nat>,          // how many calls were counted when each compaction was applied
    replaced: seq<CountedReplacement>  // every replacement of the surface, oldest first
  )

  /** A surface was replaced after so many counted calls; `kept` when the engine remembered it as applied. */
  datatype CountedReplacement = CountedReplacement(at: nat, kept: bool)

  /** How recordAudit ends; a late failure comes after the record was published. */
  datatype AuditOutcome = Recorded | FailedBeforePublish | FailedAfterPublish

  datatype Event =
    | Message                                                   // the session grows by one node
    | Call(critical: bool, enoughSegments: bool, strategyKnown: bool)
    | ExecutionEnds                                             // nothing planned, or every attempt failed
    | ExecutionApplies(count: nat, details: Details)            // the first `count` nodes were replaced
    | ExecutionLost(count: nat)                                 // so they were, but building the record then failed
    | AuditReturns(outcome: AuditOutcome)
    | EmitReturns(ok: bool)

  /** Adds a record unless an equal one is there. */
  function AddOnce(log: seq<Audit>, audit: Audit): seq<Audit> {
    if audit in log then log else log + [audit]
  }

  function AfterCall(s: EngineSession, e: Event, minGapRounds: nat): EngineSession
    requires e.Call?
  {
    if !s.stage.Idle? then s
    else if s.pending.Some? then s.(stage := if s.pending.value.auditPersisted then Emitting else Recording)
    else
      var rounds := s.rounds + 1;
      var counted := s.(rounds := rounds, counted := s.counted + 1);
      if e.critical && rounds >= minGapRounds && e.enoughSegments && e.strategyKnown
      then counted.(stage := Executing) else counted
  }

  function AfterApply(s: EngineSession, count: nat, details: Details): EngineSession
    requires count <= |s.nodes|
  {
    var after := [s.nextSeq] + s.nodes[count..];
    var audit := Audit(details, s.nodes, after);
    s.(stage := Recording, rounds := 0, pending := Some(Pending(audit, false)),
       nodes := after, nextSeq := s.nextSeq + 1,
       applied := s.applied + [audit], appliedAt := s.appliedAt + [s.counted],
       replaced := s.replaced + [CountedReplacement(s.counted, true)])
  }

  /** The clock or the second look at the surface fails: the surface is replaced, and nothing remembers it. */
  function AfterLoss(s: EngineSession, count: nat): EngineSession
    requires count <= |s.nodes|
  {
    s.(stage := Idle, nodes := [s.nextSeq] + s.nodes[count..], nextSeq := s.nextSeq + 1,
       replaced := s.replaced + [CountedReplacement(s.counted, false)])
  }

  function AfterAudit(s: EngineSession, outcome: AuditOutcome): EngineSession
    requires s.pending.Some?
  {
    var pending := s.pending.value;
    var log := if outcome.FailedBeforePublish? then s.log else AddOnce(s.log, pending.audit);
    if outcome.Recorded?
    then s.(log := log, pending := Some(pending.(auditPersisted := true)), stage := Emitting)
    else s.(log := log, stage := Idle)
  }

  function AfterEmit(s: EngineSession, ok: bool): EngineSession
    requires s.pending.Some?
  {
    if ok then s.(announced := s.announced + [s.pending.value.audit], pending := None, stage := Idle)
    else s.(stage := Idle)
  }

  /** The event loses a replacement. */
  predicate Loses(s: EngineSession, e: Event) {
    e.ExecutionLost? && s.stage.Executing? && 0 < e.count <= |s.nodes|
  }

  /** An event that cannot happen in the current stage leaves the session alone. */
  function Step(s: EngineSession, e: Event, minGapRounds: nat): EngineSession {
    match e
    case Message => s.(nodes := s.nodes + [s.nextSeq], nextSeq := s.nextSeq + 1)
    case Call(_, _, _) => AfterCall(s, e, minGapRounds)
    case ExecutionEnds => if s.stage.Executing? then s.(stage := Idle) else s
    case ExecutionApplies(count, details) =>
      if s.stage.Executing? && 0 < count <= |s.nodes| then AfterApply(s, count, details) else s
    case ExecutionLost(count) => if Loses(s, e) then AfterLoss(s, count) else s
    case AuditReturns(outcome) => if s.stage.Recording? && s.pending.Some? then AfterAudit(s, outcome) else s
    case EmitReturns(ok) => if s.stage.Emitting? && s.pending.Some? then AfterEmit(s, ok) else s
  }

  function Run(s: EngineSession, events: seq<Event>, minGapRounds: nat): EngineSession
    decreases events
  {
    if events == [] then s else Run(Step(s, events[0], minGapRounds), events[1..], minGapRounds)
  }

  /** A session whose audit file holds the records of earlier lives of the process. */
  function Fresh(nodes: seq<nat>, nextSeq: nat, base: seq<Audit>): EngineSession {
    EngineSession(Idle, 0, None, nodes, nextSeq, base, [], [], 0, [], [])
  }

  // ----- The protocol invariant -----

  /** A record that carries the sequence number of a node appended before `next`. */
  ghost predicate OlderThan(audit: Audit, next: nat) {
    audit.after != [] && audit.after[0] < next
  }

  ghost predicate NoDuplicates(log: seq<Audit>) {
    forall i, j :: 0 <= i < j < |log| ==> log[i] != log[j]
  }

  /** How many of the applied compactions are in the audit file. */
  ghost predicate Logged(s: EngineSession, base: seq<Audit>, n: nat) {
    n <= |s.applied| && s.log == base + s.applied[..n]
  }

  /** The file is the records it started with and then the applied compactions in order, at most the last one missing;
      the events are the applied compactions in order, at most the last one missing; a pending compaction is that last
      one, it is announced only after it is on file, and no strategy executes while it is pending. */
  ghost predicate Orderly(s: EngineSession, base: seq<Audit>) {
    var n := |s.applied|;
    (match s.pending
     case None => s.announced == s.applied && Logged(s, base, n) && (s.stage.Idle? || s.stage.Executing?)
     case Some(p) =>
       n > 0 && p.audit == s.applied[n - 1] && s.announced == s.applied[..n - 1]
       && (Logged(s, base, n) || (!p.auditPersisted && Logged(s, base, n - 1)))
       && (s.stage.Idle? || (s.stage.Recording? && !p.auditPersisted) || (s.stage.Emitting? && p.auditPersisted)))
  }

  /** Every record is older than the next node, and no record occurs twice. */
  ghost predicate Dated(s: EngineSession, base: seq<Audit>) {
    (forall a :: a in base + s.applied ==> OlderThan(a, s.nextSeq)) && NoDuplicates(base + s.applied)
  }

  /** The counted calls up to the compaction before the `i`-th; none before the first. */
  function CallsBefore(appliedAt: seq<nat>, i: nat): nat
    requires i <= |appliedAt|
  {
    if i == 0 then 0 else appliedAt[i - 1]
  }

  ghost predicate GapBefore(appliedAt: seq<nat>, i: nat, minGapRounds: nat)
    requires i < |appliedAt|
  {
    CallsBefore(appliedAt, i) + minGapRounds <= appliedAt[i]
  }

  /** Consecutive compactions are at least `minGapRounds` counted calls apart, and so is the first from the start. */
  ghost predicate Spaced(s: EngineSession, minGapRounds: nat) {
    |s.appliedAt| == |s.applied|
    && (forall i :: 0 <= i < |s.appliedAt| ==> GapBefore(s.appliedAt, i, minGapRounds))
    && s.rounds == s.counted - CallsBefore(s.appliedAt, |s.appliedAt|)
    && (s.stage.Executing? ==> s.rounds >= minGapRounds)
  }

  function KeptCount(replaced: seq<CountedReplacement>): nat {
    if replaced == [] then 0
    else KeptCount(replaced[..|replaced| - 1]) + (if replaced[|replaced| - 1].kept then 1 else 0)
  }

  /** The counted calls up to the replacement before the `i`-th. */
  function ReplacedBefore(replaced: seq<CountedReplacement>, i: nat): nat
    requires i <= |replaced|
  {
    if i == 0 then 0 else replaced[i - 1].at
  }

  /** The `i`-th replacement comes at least `minGapRounds` counted calls after the one before it. */
  ghost predicate ReplacedInTime(replaced: seq<CountedReplacement>, i: nat, minGapRounds: nat)
    requires i < |replaced|
  {
    ReplacedBefore(replaced, i) + minGapRounds <= replaced[i].at
  }

  /** So it does when the one before it was kept; after a lost one it is only certain that some call was counted. */
  ghost predicate GapAfterKept(replaced: seq<CountedReplacement>, i: nat, minGapRounds: nat)
    requires i < |replaced|
  {
    (i > 0 ==> replaced[i - 1].at < replaced[i].at)
    && (i == 0 || replaced[i - 1].kept ==> ReplacedInTime(replaced, i, minGapRounds))
  }

  /** The kept replacements are the applied compactions; they hold the others off, lost ones do not. */
  ghost predicate Replacing(s: EngineSession, minGapRounds: nat) {
    var n := |s.replaced|;
    KeptCount(s.replaced) == |s.applied|
    && (forall i :: 0 <= i < n ==> GapAfterKept(s.replaced, i, minGapRounds))
    && ReplacedBefore(s.replaced, n) <= s.counted
    && (n > 0 && s.stage.Executing? ==> s.replaced[n - 1].at < s.counted)
    && (n == 0 || s.replaced[n - 1].kept ==> s.rounds == s.counted - ReplacedBefore(s.replaced, n))
  }

  ghost predicate Inv(s: EngineSession, base: seq<Audit>, minGapRounds: nat) {
    Orderly(s, base) && Dated(s, base) && Spaced(s, minGapRounds) && Replacing(s, minGapRounds)
  }

  lemma ApplyKeepsOrder(s: EngineSession, base: seq<Audit>, count: nat, details: Details)
    requires Orderly(s, base) && s.stage.Executing? && count <= |s.nodes|
    ensures Orderly(AfterApply(s, count, details), base)
  {
    var n, t := |s.applied|, AfterApply(s, count, details);
    assert t.applied[..n] == s.applied && s.applied[..n] == s.applied;
  }

  lemma AuditKeepsOrder(s: EngineSession, base: seq<Audit>, outcome: AuditOutcome)
    requires Orderly(s, base) && Dated(s, base) && s.pending.Some? && s.stage.Recording?
    ensures Orderly(AfterAudit(s, outcome), base)
  {
    AddOnceLogs(s, base);
    assert s.applied[..|s.applied|] == s.applied;
  }

  lemma EmitKeepsOrder(s: EngineSession, base: seq<Audit>, ok: bool)
    requires Orderly(s, base) && s.pending.Some? && s.stage.Emitting?
    ensures Orderly(AfterEmit(s, ok), base)
  {
    assert s.applied == s.applied[..|s.applied| - 1] + [s.pending.value.audit];
  }

  lemma StepKeepsOrder(s: EngineSession, base: seq<Audit>, e: Event, minGapRounds: nat)
    requires Inv(s, base, minGapRounds)
    ensures Orderly(Step(s, e, minGapRounds), base)
  {
    match e
    case ExecutionApplies(count, details) =>
      if s.stage.Executing? && 0 < count <= |s.nodes| {
        ApplyKeepsOrder(s, base, count, details);
      }
    case AuditReturns(outcome) =>
      if s.stage.Recording? && s.pending.Some? {
        AuditKeepsOrder(s, base, outcome);
      }
    case EmitReturns(ok) =>
      if s.stage.Emitting? && s.pending.Some? {
        EmitKeepsOrder(s, base, ok);
      }
    case _ =>
  }

  /** Recording again what a failed attempt already published adds nothing. */
  lemma AddOnceLogs(s: EngineSession, base: seq<Audit>)
    requires Orderly(s, base) && Dated(s, base) && s.pending.Some?
    ensures AddOnce(s.log, s.pending.value.audit) == base + s.applied
  {
    var n := |s.applied|;
    var a := s.pending.value.audit;
    var all := base + s.applied;
    assert all[|base| + n - 1] == a;
    if Logged(s, base, n) {
      assert s.applied[..n] == s.applied;
    } else {
      assert s.log == all[..|base| + n - 1];
      assert all == s.log + [a];
    }
  }

  lemma StepKeepsDates(s: EngineSession, base: seq<Audit>, e: Event, minGapRounds: nat)
    requires Inv(s, base, minGapRounds)
    ensures Dated(Step(s, e, minGapRounds), base)
  {
    var t := Step(s, e, minGapRounds);
    if t.applied != s.applied {
      var all := base + s.applied;
      var created := t.applied[|s.applied|];
      assert base + t.applied == all + [created];
      assert created !in all by {
        assert created.after[0] == s.nextSeq;
      }
      AppendKeepsDistinct(all, created);
    }
  }

  lemma AppendKeepsDistinct(log: seq<Audit>, audit: Audit)
    requires NoDuplicates(log) && audit !in log
    ensures NoDuplicates(log + [audit])
  {
  }

  lemma StepKeepsSpacing(s: EngineSession, base: seq<Audit>, e: Event, minGapRounds: nat)
    requires Inv(s, base, minGapRounds)
    ensures Spaced(Step(s, e, minGapRounds), minGapRounds)
  {
    match e
    case Call(_, _, _) => CallKeepsSpacing(s, e, minGapRounds);
    case ExecutionApplies(count, details) =>
      if s.stage.Executing? && 0 < count <= |s.nodes| {
        ApplyKeepsSpacing(s, count, details, minGapRounds);
      }
    case _ =>
  }

  lemma CallKeepsSpacing(s: EngineSession, e: Event, minGapRounds: nat)
    requires Spaced(s, minGapRounds) && e.Call?
    ensures Spaced(AfterCall(s, e, minGapRounds), minGapRounds)
  {
  }

  lemma ApplyKeepsSpacing(s: EngineSession, count: nat, details: Details, minGapRounds: nat)
    requires Spaced(s, minGapRounds) && s.stage.Executing? && count <= |s.nodes|
    ensures Spaced(AfterApply(s, count, details), minGapRounds)
  {
    var t := AfterApply(s, count, details);
    forall i | 0 <= i < |t.appliedAt| ensures GapBefore(t.appliedAt, i, minGapRounds) {
      if i < |s.appliedAt| {
        assert GapBefore(s.appliedAt, i, minGapRounds);
      }
    }
  }

  lemma AppendCounts(replaced: seq<CountedReplacement>, r: CountedReplacement)
    ensures KeptCount(replaced + [r]) == KeptCount(replaced) + (if r.kept then 1 else 0)
  {
    assert (replaced + [r])[..|replaced|] == replaced;
  }

  /** One more replacement by a strategy that was let to execute. */
  lemma AppendKeepsGaps(s: EngineSession, kept: bool, minGapRounds: nat)
    requires Spaced(s, minGapRounds) && Replacing(s, minGapRounds) && s.stage.Executing?
    ensures var more := s.replaced + [CountedReplacement(s.counted, kept)];
            (forall i :: 0 <= i < |more| ==> GapAfterKept(more, i, minGapRounds))
            && KeptCount(more) == |s.applied| + (if kept then 1 else 0)
  {
    var r := CountedReplacement(s.counted, kept);
    var more := s.replaced + [r];
    AppendCounts(s.replaced, r);
    forall i | 0 <= i < |more| ensures GapAfterKept(more, i, minGapRounds) {
      if i < |s.replaced| {
        assert GapAfterKept(s.replaced, i, minGapRounds);
      }
    }
  }

  lemma ApplyKeepsReplacing(s: EngineSession, count: nat, details: Details, minGapRounds: nat)
    requires Spaced(s, minGapRounds) && Replacing(s, minGapRounds) && s.stage.Executing? && count <= |s.nodes|
    ensures Replacing(AfterApply(s, count, details), minGapRounds)
  {
    AppendKeepsGaps(s, true, minGapRounds);
  }

  lemma LossKeepsReplacing(s: EngineSession, count: nat, minGapRounds: nat)
    requires Spaced(s, minGapRounds) && Replacing(s, minGapRounds) && s.stage.Executing? && count <= |s.nodes|
    ensures Replacing(AfterLoss(s, count), minGapRounds)
  {
    AppendKeepsGaps(s, false, minGapRounds);
  }

  lemma CallKeepsReplacing(s: EngineSession, e: Event, minGapRounds: nat)
    requires Replacing(s, minGapRounds) && e.Call?
    ensures Replacing(AfterCall(s, e, minGapRounds), minGapRounds)
  {
  }

  lemma StepKeepsReplacing(s: EngineSession, base: seq<Audit>, e: Event, minGapRounds: nat)
    requires Inv(s, base, minGapRounds)
    ensures Replacing(Step(s, e, minGapRounds), minGapRounds)
  {
    match e
    case Call(_, _, _) => CallKeepsReplacing(s, e, minGapRounds);
    case ExecutionApplies(count, details) =>
      if s.stage.Executing? && 0 < count <= |s.nodes| {
        ApplyKeepsReplacing(s, count, details, minGapRounds);
      }
    case ExecutionLost(count) =>
      if Loses(s, e) {
        LossKeepsReplacing(s, count, minGapRounds);
      }
    case _ =>
  }

  lemma {:induction false} RunKeepsInv(s: EngineSession, base: seq<Audit>, events: seq<Event>, minGapRounds: nat)
    requires Inv(s, base, minGapRounds)
    ensures Inv(Run(s, events, minGapRounds), base, minGapRounds)
    decreases |events|
  {
    if events != [] {
      StepKeepsOrder(s, base, events[0], minGapRounds);
      StepKeepsDates(s, base, events[0], minGapRounds);
      StepKeepsSpacing(s, base, events[0], minGapRounds);
      StepKeepsReplacing(s, base, events[0], minGapRounds);
      RunKeepsInv(Step(s, events[0], minGapRounds), base, events[1..], minGapRounds);
    }
  }

  lemma FreshHolds(nodes: seq<nat>, nextSeq: nat, base: seq<Audit>, minGapRounds: nat)
    requires NoDuplicates(base) && forall a :: a in base ==> OlderThan(a, nextSeq)
    ensures Inv(Fresh(nodes, nextSeq, base), base, minGapRounds)
  {
    var created := Fresh(nodes, nextSeq, base);
    assert base + created.applied == base && created.applied[..0] == created.applied;
  }

  /** Over every run from a fresh session, whatever fails and whenever. */
  lemma ProtocolHolds(nodes: seq<nat>, nextSeq: nat, base: seq<Audit>, events: seq<Event>, minGapRounds: nat)
    requires NoDuplicates(base) && forall a :: a in base ==> OlderThan(a, nextSeq)
    ensures var s := Run(Fresh(nodes, nextSeq, base), events, minGapRounds);
            Orderly(s, base) && NoDuplicates(s.log) && Spaced(s, minGapRounds) && Replacing(s, minGapRounds)
  {
    var created := Fresh(nodes, nextSeq, base);
    FreshHolds(nodes, nextSeq, base, minGapRounds);
    RunKeepsInv(created, base, events, minGapRounds);
    var s := Run(created, events, minGapRounds);
    var n := if s.log == base + s.applied then |s.applied| else |s.applied| - 1;
    assert s.applied[..|s.applied|] == s.applied;
    assert s.log == (base + s.applied)[..|base| + n];
  }

  // ----- Lost replacements -----

  /** No event of the run loses a replacement. */
  predicate NoneLost(s: EngineSession, events: seq<Event>, minGapRounds: nat)
    decreases |events|
  {
    events == [] || (!Loses(s, events[0]) && NoneLost(Step(s, events[0], minGapRounds), events[1..], minGapRounds))
  }

  predicate AllKept(replaced: seq<CountedReplacement>) {
    forall i :: 0 <= i < |replaced| ==> replaced[i].kept
  }

  lemma {:induction false} KeptCountIsAll(replaced: seq<CountedReplacement>)
    ensures KeptCount(replaced) <= |replaced|
    ensures KeptCount(replaced) == |replaced| <==> AllKept(replaced)
  {
    if replaced != [] {
      KeptCountIsAll(replaced[..|replaced| - 1]);
    }
  }

  lemma {:induction false} RunKeepsAll(s: EngineSession, events: seq<Event>, minGapRounds: nat)
    ensures AllKept(Run(s, events, minGapRounds).replaced)
      <==> AllKept(s.replaced) && NoneLost(s, events, minGapRounds)
    decreases |events|
  {
    if events != [] {
      var t := Step(s, events[0], minGapRounds);
      assert AllKept(t.replaced) <==> AllKept(s.replaced) && !Loses(s, events[0]) by {
        assert s.replaced <= t.replaced;
        assert Loses(s, events[0]) ==> !t.replaced[|s.replaced|].kept;
      }
      RunKeepsAll(t, events[1..], minGapRounds);
    }
  }

  /** Every replacement of a run is an applied compaction, and so has its record or its pending one, exactly when
      the run lost none. */
  lemma EveryReplacementIsAppliedIff(nodes: seq<nat>, nextSeq: nat, base: seq<Audit>, events: seq<Event>,
                                     minGapRounds: nat)
    requires NoDuplicates(base) && forall a :: a in base ==> OlderThan(a, nextSeq)
    ensures var s := Run(Fresh(nodes, nextSeq, base), events, minGapRounds);
            |s.replaced| == |s.applied| <==> NoneLost(Fresh(nodes, nextSeq, base), events, minGapRounds)
  {
    var created := Fresh(nodes, nextSeq, base);
    ProtocolHolds(nodes, nextSeq, base, events, minGapRounds);
    RunKeepsAll(created, events, minGapRounds);
    KeptCountIsAll(Run(created, events, minGapRounds).replaced);
  }

  /** All replacements are `minGapRounds` counted calls apart. */
  ghost predicate AllInTime(s: EngineSession, minGapRounds: nat) {
    forall i :: 0 <= i < |s.replaced| ==> ReplacedInTime(s.replaced, i, minGapRounds)
  }

  /** They are in every run that loses none. */
  lemma KeptAreInTime(nodes: seq<nat>, nextSeq: nat, base: seq<Audit>, events: seq<Event>, minGapRounds: nat)
    requires NoDuplicates(base) && forall a :: a in base ==> OlderThan(a, nextSeq)
    requires NoneLost(Fresh(nodes, nextSeq, base), events, minGapRounds) || minGapRounds <= 1
    ensures AllInTime(Run(Fresh(nodes, nextSeq, base), events, minGapRounds), minGapRounds)
  {
    var created := Fresh(nodes, nextSeq, base);
    ProtocolHolds(nodes, nextSeq, base, events, minGapRounds);
    RunKeepsAll(created, events, minGapRounds);
    var s := Run(created, events, minGapRounds);
    forall i | 0 <= i < |s.replaced| ensures ReplacedInTime(s.replaced, i, minGapRounds) {
      assert GapAfterKept(s.replaced, i, minGapRounds);
    }
  }

  function Quiet(n: nat): seq<Event> {
    seq(n, i => Call(false, true, true))
  }

  lemma {:induction false} QuietCounts(s: EngineSession, n: nat, minGapRounds: nat)
    requires s.stage.Idle? && s.pending.None?
    ensures Run(s, Quiet(n), minGapRounds) == s.(rounds := s.rounds + n, counted := s.counted + n)
    decreases n
  {
    if n > 0 {
      assert Quiet(n)[1..] == Quiet(n - 1);
      QuietCounts(Step(s, Quiet(n)[0], minGapRounds), n - 1, minGapRounds);
    }
  }

  lemma {:induction false} RunAppend(s: EngineSession, a: seq<Event>, b: seq<Event>, minGapRounds: nat)
    ensures Run(s, a + b, minGapRounds) == Run(Run(s, a, minGapRounds), b, minGapRounds)
    decreases |a|
  {
    if a == [] {
      assert a + b == b;
    } else {
      assert (a + b)[1..] == a[1..] + b;
      RunAppend(Step(s, a[0], minGapRounds), a[1..], b, minGapRounds);
    }
  }

  lemma RunStep(s: EngineSession, e: Event, rest: seq<Event>, minGapRounds: nat)
    ensures Run(s, [e] + rest, minGapRounds) == Run(Step(s, e, minGapRounds), rest, minGapRounds)
  {
    assert ([e] + rest)[1..] == rest;
  }

  /** Four events: a critical call, its replacement lost, the next critical call, its replacement. */
  function LossAndNext(details: Details): seq<Event> {
    [Call(true, true, true)] + ([ExecutionLost(1)] + ([Call(true, true, true)] + ([ExecutionApplies(1, details)] + [])))
  }

  lemma LostThenNext(s: EngineSession, details: Details, minGapRounds: nat)
    requires s.stage.Idle? && s.pending.None? && s.nodes != [] && s.rounds + 1 >= minGapRounds && s.replaced == []
    ensures var r := Run(s, LossAndNext(details), minGapRounds).replaced; |r| == 2 && r[1].at == r[0].at + 1
  {
    var call := Call(true, true, true);
    var one := Step(s, call, minGapRounds);
    var two := Step(one, ExecutionLost(1), minGapRounds);
    var three := Step(two, call, minGapRounds);
    RunStep(s, call, [ExecutionLost(1)] + ([call] + ([ExecutionApplies(1, details)] + [])), minGapRounds);
    RunStep(one, ExecutionLost(1), [call] + ([ExecutionApplies(1, details)] + []), minGapRounds);
    RunStep(two, call, [ExecutionApplies(1, details)] + [], minGapRounds);
    RunStep(three, ExecutionApplies(1, details), [], minGapRounds);
  }

  /** Whatever the surface, some run replaces it twice, one counted call apart. */
  lemma LossBreaksSpacing(nodes: seq<nat>, nextSeq: nat, base: seq<Audit>, details: Details, minGapRounds: nat)
      returns (events: seq<Event>)
    requires nodes != [] && minGapRounds >= 2
    ensures !AllInTime(Run(Fresh(nodes, nextSeq, base), events, minGapRounds), minGapRounds)
  {
    var last := LossAndNext(details);
    events := Quiet(minGapRounds - 1) + last;
    QuietCounts(Fresh(nodes, nextSeq, base), minGapRounds - 1, minGapRounds);
    RunAppend(Fresh(nodes, nextSeq, base), Quiet(minGapRounds - 1), last, minGapRounds);
    LostThenNext(Run(Fresh(nodes, nextSeq, base), Quiet(minGapRounds - 1), minGapRounds), details, minGapRounds);
    var s := Run(Fresh(nodes, nextSeq, base), events, minGapRounds);
    assert !ReplacedInTime(s.replaced, 1, minGapRounds);
  }

  /** Lost replacements included, replacements are `minGapRounds` counted calls apart in every run exactly when that
      is at most one. */
  lemma AllInTimeIff(nodes: seq<nat>, nextSeq: nat, base: seq<Audit>, details: Details, minGapRounds: nat)
    requires NoDuplicates(base) && (forall a :: a in base ==> OlderThan(a, nextSeq)) && nodes != []
    ensures (forall events :: AllInTime(Run(Fresh(nodes, nextSeq, base), events, minGapRounds), minGapRounds))
      <==> minGapRounds <= 1
  {
    if minGapRounds >= 2 {
      var events := LossBreaksSpacing(nodes, nextSeq, base, details, minGapRounds);
    } else {
      forall events ensures AllInTime(Run(Fresh(nodes, nextSeq, base), events, minGapRounds), minGapRounds) {
        KeptAreInTime(nodes, nextSeq, base, events, minGapRounds);
      }
    }
  }

  // ----- What an execution does to the surface -----

  /** The session state has the nodes of this surface and has seen all its replacements. */
  ghost predicate Agrees(s: EngineSession, surface: Compaction.Surface) {
    s.nodes == surface.nodes && s.nextSeq == surface.nextSeq && |s.replaced| == |surface.replaced|
  }

  /** How many nodes a compaction took off the surface: those its plan does not keep. */
  function TakenOff(outcome: Compaction.Outcome): nat
    requires outcome.Applied?
  {
    if |outcome.plan.keep| <= |outcome.before| then |outcome.before| - |outcome.plan.keep| else 0
  }

  function DetailsOf(outcome: Compaction.Outcome, at: int): Details
    requires outcome.Applied?
  {
    var result := outcome.result;
    Details(at, outcome.strategyId, result.beforeTokens, result.afterTokens, result.archiveFiles, outcome.plan)
  }

  function AuditOf(outcome: Compaction.Outcome, at: int): Audit
    requires outcome.Applied?
  {
    Audit(DetailsOf(outcome, at), outcome.before, outcome.after)
  }

  /** The event that a compaction is; `clock` is what the clock and the second look at the surface give. */
  function ExecutionEvent(outcome: Compaction.Outcome, clock: Option<int>): Event {
    if !outcome.Applied? then ExecutionEnds
    else if clock.None? then ExecutionLost(TakenOff(outcome))
    else ExecutionApplies(TakenOff(outcome), DetailsOf(outcome, clock.value))
  }

  /** The first `k` nodes gave way to one new node, once. */
  ghost predicate TookPrefix(before: Compaction.Surface, after: Compaction.Surface, k: nat) {
    0 < k <= |before.nodes| && after.nodes == [before.nextSeq] + before.nodes[k..]
    && after.nextSeq == before.nextSeq + 1 && |after.replaced| == |before.replaced| + 1
  }

  /** A compaction that applied took its part off the surface, and recorded the surfaces before and after. */
  ghost predicate TookAndRecorded(before: Compaction.Surface, after: Compaction.Surface, outcome: Compaction.Outcome)
    requires outcome.Applied?
  {
    TookPrefix(before, after, TakenOff(outcome)) && outcome.before == before.nodes && outcome.after == after.nodes
  }

  lemma AppliedTakesPrefix(context: Compaction.DshCompactionContext, budgetTokens: int, before: Compaction.Surface,
                           outcome: Compaction.Outcome)
    requires outcome.Applied? && Compaction.AppliedCorrectly(context, budgetTokens, before, outcome)
    ensures TookAndRecorded(before, context.session.Current(), outcome)
  {
    var after := context.session.Current();
    assert after.replaced[..|before.replaced|] == before.replaced;
  }

  /** Such a compaction is a step that applies one, with its nodes and its record, or one that loses it. */
  lemma AppliedIsStep(before: Compaction.Surface, after: Compaction.Surface, outcome: Compaction.Outcome,
                      s: EngineSession, clock: Option<int>, minGapRounds: nat)
    requires outcome.Applied? && TookAndRecorded(before, after, outcome)
    requires s.stage.Executing? && Agrees(s, before)
    ensures var t := Step(s, ExecutionEvent(outcome, clock), minGapRounds);
            Agrees(t, after)
            && if clock.None? then t.applied == s.applied && t.pending == s.pending
               else t.applied == s.applied + [AuditOf(outcome, clock.value)]
                    && t.pending == Some(Pending(AuditOf(outcome, clock.value), false))
  {
  }

  // ----- The objects that keep this state -----

  /** The audit file of one session. A call may fail before the record is published, or after it. */
  class AuditFile {
    var log: seq<Audit>

    method RecordAudit(audit: Audit) returns (outcome: AuditOutcome)
      modifies this
      ensures log == if outcome.FailedBeforePublish? then old(log) else AddOnce(old(log), audit)
    {
      if * {
        return FailedBeforePublish;
      }
      if audit !in log {
        log := log + [audit];
      }
      if * {
        return FailedAfterPublish;
      }
      return Recorded;
    }
  }

  /** How a call that found nothing in flight goes on. */
  datatype Decision = Return | Retry(pending: Pending) | Execute

  /** The engine's maps, by session key. Each method is what runs between two awaits of one call. */
  class DefaultCompactionEngine {
    const minGapRounds: nat
    var inFlight: set<string>
    var roundsSinceCompaction: map<string, nat>
    var appliedCompactions: map<string, Pending>

    constructor (minGapRounds: nat)
      ensures this.minGapRounds == minGapRounds
      ensures forall key, nodes, nextSeq, base :: Represents(key, Fresh(nodes, nextSeq, base))
    {
      this.minGapRounds, inFlight, roundsSinceCompaction, appliedCompactions := minGapRounds, {}, map[], map[];
    }

    /** The entries under `key` are those of the session state `s`. */
    ghost predicate Represents(key: string, s: EngineSession)
      reads this
    {
      (key in inFlight <==> !s.stage.Idle?)
      && s.rounds == (if key in roundsSinceCompaction then roundsSinceCompaction[key] else 0)
      && s.pending == (if key in appliedCompactions then Some(appliedCompactions[key]) else None)
    }

    /** Nothing is changed for any other session. */
    twostate predicate OthersKept(key: string)
      reads this
    {
      forall other, s :: other != key && old(Represents(other, s)) ==> Represents(other, s)
    }

    method BeginCall(key: string, critical: bool, enoughSegments: bool, strategyKnown: bool, ghost s: EngineSession)
      returns (decision: Decision)
      requires Represents(key, s)
      modifies this
      ensures Represents(key, Step(s, Call(critical, enoughSegments, strategyKnown), minGapRounds)) && OthersKept(key)
      ensures var t := Step(s, Call(critical, enoughSegments, strategyKnown), minGapRounds);
              (decision.Execute? <==> s.stage.Idle? && t.stage.Executing?)
              && (decision.Retry? <==> s.stage.Idle? && s.pending.Some?)
              && (decision.Retry? ==> Some(decision.pending) == s.pending)
    {
      if key in inFlight {
        return Return;
      }
      if key in appliedCompactions {
        inFlight := inFlight + {key};
        return Retry(appliedCompactions[key]);
      }
      var rounds := (if key in roundsSinceCompaction then roundsSinceCompaction[key] else 0) + 1;
      roundsSinceCompaction := roundsSinceCompaction[key := rounds];
      if !critical || rounds < minGapRounds || !enoughSegments || !strategyKnown {
        return Return;
      }
      inFlight := inFlight + {key};
      return Execute;
    }

    method EndExecution(key: string, ghost s: EngineSession)
      requires Represents(key, s) && s.stage.Executing?
      modifies this
      ensures Represents(key, Step(s, ExecutionEnds, minGapRounds)) && OthersKept(key)
    {
      inFlight := inFlight - {key};
    }

    method ApplyExecution(key: string, audit: Audit, ghost s: EngineSession, ghost count: nat)
      requires Represents(key, s) && s.stage.Executing? && 0 < count <= |s.nodes|
      requires audit == Audit(audit.details, s.nodes, [s.nextSeq] + s.nodes[count..])
      modifies this
      ensures Represents(key, Step(s, ExecutionApplies(count, audit.details), minGapRounds)) && OthersKept(key)
    {
      roundsSinceCompaction := roundsSinceCompaction[key := 0];
      appliedCompactions := appliedCompactions[key := Pending(audit, false)];
    }

    /** The clock or the second snapshot throws after the surface was replaced. */
    method LoseExecution(key: string, ghost s: EngineSession, ghost count: nat)
      requires Represents(key, s) && s.stage.Executing? && 0 < count <= |s.nodes|
      modifies this
      ensures Represents(key, Step(s, ExecutionLost(count), minGapRounds)) && OthersKept(key)
    {
      inFlight := inFlight - {key};
    }

    /** What follows a compaction: nothing was applied, or the record could not be built, or it is remembered. */
    method FinishExecution(key: string, outcome: Compaction.Outcome, clock: Option<int>, ghost s: EngineSession,
                           ghost before: Compaction.Surface, ghost after: Compaction.Surface)
      requires Represents(key, s) && s.stage.Executing? && Agrees(s, before)
      requires if outcome.Applied? then TookAndRecorded(before, after, outcome) else after == before
      modifies this
      ensures Represents(key, Step(s, ExecutionEvent(outcome, clock), minGapRounds)) && OthersKept(key)
      ensures Agrees(Step(s, ExecutionEvent(outcome, clock), minGapRounds), after)
    {
      if !outcome.Applied? {
        EndExecution(key, s);
      } else {
        AppliedIsStep(before, after, outcome, s, clock, minGapRounds);
        if clock.None? {
          LoseExecution(key, s, TakenOff(outcome));
        } else {
          ApplyExecution(key, AuditOf(outcome, clock.value), s, TakenOff(outcome));
        }
      }
    }

    /** A call from its plan to its record. */
    method ExecuteStrategy(key: string, strategy: Strategy, budgetTokens: int, clock: Option<int>,
                           context: Compaction.DshCompactionContext, ghost s: EngineSession)
      returns (outcome: Compaction.Outcome)
      requires Represents(key, s) && s.stage.Executing? && Agrees(s, context.session.Current())
      requires context.session.Valid() && Compaction.Mirrors(context.snapshots, context.session.nodes, 0)
      requires context.touched == {} && Compaction.NamesSegments(context.archive.pathOf)
      modifies this, context, context.archive, context.session
      ensures Represents(key, Step(s, ExecutionEvent(outcome, clock), minGapRounds)) && OthersKept(key)
      ensures Agrees(Step(s, ExecutionEvent(outcome, clock), minGapRounds), context.session.Current())
      ensures outcome.Applied?
        ==> Compaction.AppliedCorrectly(context, budgetTokens, old(context.session.Current()), outcome)
    {
      ghost var before := context.session.Current();
      outcome := Compaction.Compact(strategy, budgetTokens, context);
      if outcome.Applied? {
        AppliedTakesPrefix(context, budgetTokens, before, outcome);
      }
      FinishExecution(key, outcome, clock, s, before, context.session.Current());
    }

    method AuditReturned(key: string, applied: Pending, outcome: AuditOutcome, ghost s: EngineSession)
      requires Represents(key, s) && s.stage.Recording? && s.pending == Some(applied)
      modifies this
      ensures Represents(key, Step(s, AuditReturns(outcome), minGapRounds)) && OthersKept(key)
    {
      if outcome.Recorded? {
        if key in appliedCompactions && appliedCompactions[key] == applied {
          appliedCompactions := appliedCompactions[key := applied.(auditPersisted := true)];
        }
      } else {
        inFlight := inFlight - {key};
      }
    }

    method EmitReturned(key: string, confirmed: Pending, ok: bool, ghost s: EngineSession)
      requires Represents(key, s) && s.stage.Emitting? && s.pending == Some(confirmed)
      modifies this
      ensures Represents(key, Step(s, EmitReturns(ok), minGapRounds)) && OthersKept(key)
    {
      if ok && key in appliedCompactions && appliedCompactions[key] == confirmed {
        appliedCompactions := appliedCompactions - {key};
      }
      inFlight := inFlight - {key};
    }
  }
}
