/** The life of one plan (packages/dsh-luban-plan/src/service.ts, src/template.ts) and its guard (src/guard.ts). */
module Plans {
  import opened Wrappers
  import opened Text

  datatype Status = Draft | InReview | Approved | Executing | Completed | Rejected | Revising

  datatype Sections = Sections(background: string, impact: string, changes: string, verification: string)

  datatype Verdict = Approve | Reject

  datatype Actor = Actor(id: string, accountId: string)

  datatype Decision = Decision(reviewer: Actor, verdict: Verdict, comment: Option<string>, at: int)

  datatype Plan = Plan(
    id: string, accountId: string, taskId: Option<string>, sessionId: Option<string>,
    status: Status, sections: Sections, filePath: string, decisions: seq<Decision>, version: nat,
    workspace: string, slug: string, createdAt: int, updatedAt: int)

  datatype Error = InvalidInput | NotFound | VersionConflict | InvalidTransition | ScopeMismatch | Unavailable | Io
                 | Unreconciled

  // ----- Sections -----

  /** The labels of the sections that are blank, in the order of the template. */
  function MissingSections(s: Sections): seq<string> {
    (if Trim(s.background) == "" then ["background"] else [])
    + (if Trim(s.impact) == "" then ["impact"] else [])
    + (if Trim(s.changes) == "" then ["changes"] else [])
    + (if Trim(s.verification) == "" then ["verification"] else [])
  }

  predicate ValidSections(s: Sections) {
    MissingSections(s) == []
  }

  ghost predicate HasVisible(s: string) {
    exists i :: 0 <= i < |s| && !IsSpace(s[i])
  }

  lemma {:induction false} TrimStartBlank(s: string)
    ensures TrimStart(s) == "" <==> !HasVisible(s)
  {
    if s != "" {
      if IsSpace(s[0]) {
        TrimStartBlank(s[1..]);
        assert HasVisible(s) <==> HasVisible(s[1..]) by {
          assert forall i :: 0 < i < |s| ==> s[i] == s[1..][i - 1];
        }
      } else {
        assert HasVisible(s);
      }
    }
  }

  lemma TrimBlank(s: string)
    ensures Trim(s) == "" <==> !HasVisible(s)
  {
    TrimStartBlank(s);
    var t := TrimStart(s);
    if t != "" {
      TrimEndKeeps(t);
    }
  }

  lemma {:induction false} TrimEndKeeps(s: string)
    requires s != "" && !IsSpace(s[0])
    ensures TrimEnd(s) != ""
  {
    if |s| > 1 && IsSpace(s[|s| - 1]) {
      TrimEndKeeps(s[..|s| - 1]);
    }
  }

  /** Exactly the sections with a visible character in each of the four parts are accepted. */
  lemma ValidSectionsMeaning(s: Sections)
    ensures ValidSections(s) <==>
      HasVisible(s.background) && HasVisible(s.impact) && HasVisible(s.changes) && HasVisible(s.verification)
  {
    TrimBlank(s.background);
    TrimBlank(s.impact);
    TrimBlank(s.changes);
    TrimBlank(s.verification);
  }

  // ----- The operations on a stored plan -----

  predicate MayTransition(from: Status, to: Status) {
    match from
    case Draft => to == InReview
    case Approved => to == Executing
    case Executing => to == Completed
    case Rejected => to == Revising
    case Revising => to == InReview
    case InReview => false
    case Completed => false
  }

  datatype Operation =
    | Decide(verdict: Verdict, comment: Option<string>, reviewer: Actor)
    | Transition(to: Status, accountId: string)
    | Revise(sections: Sections, accountId: string)

  /** The checks made before the store is touched. */
  function Precheck(op: Operation): Option<Error> {
    match op
    case Decide(verdict, comment, _) =>
      if verdict.Reject? && (comment.None? || Trim(comment.value) == "") then Some(InvalidInput) else None
    case Transition(_, _) => None
    case Revise(sections, _) => if ValidSections(sections) then None else Some(InvalidInput)
  }

  function Requester(op: Operation): string {
    match op
    case Decide(_, _, reviewer) => reviewer.accountId
    case Transition(_, accountId) => accountId
    case Revise(_, accountId) => accountId
  }

  /** The update callback: the plan's next version, or why it is refused. */
  function Applied(p: Plan, op: Operation, now: int): Result<Plan, Error> {
    if p.accountId != Requester(op) then Err(NotFound)
    else
      match op
      case Decide(verdict, comment, reviewer) =>
        if !p.status.InReview? then Err(InvalidTransition)
        else
          var trimmed := if comment.None? then None else Some(Trim(comment.value));
          Ok(p.(status := if verdict.Approve? then Approved else Rejected,
                decisions := p.decisions + [Decision(reviewer, verdict, trimmed, now)],
                version := p.version + 1, updatedAt := now))
      case Transition(to, _) =>
        if !MayTransition(p.status, to) then Err(InvalidTransition)
        else if to.InReview? && !ValidSections(p.sections) then Err(InvalidInput)
        else Ok(p.(status := to, version := p.version + 1, updatedAt := now))
      case Revise(sections, _) =>
        if !p.status.Rejected? && !p.status.Revising? then Err(InvalidTransition)
        else Ok(p.(sections := sections, status := InReview, version := p.version + 1, updatedAt := now))
  }

  /** What identifies a plan and places its document never changes. */
  predicate SameIdentity(a: Plan, b: Plan) {
    a.id == b.id && a.accountId == b.accountId && a.filePath == b.filePath && a.workspace == b.workspace
  }

  // ----- The approval history -----

  predicate EndsInApproval(decisions: seq<Decision>) {
    decisions != [] && decisions[|decisions| - 1].verdict.Approve?
  }

  /** Only the last decision may be an approval; it is one exactly when the plan is approved, executing or completed;
      a rejected or revising plan was last rejected; a draft was never decided; and every plan that left drafting has
      its four sections. */
  ghost predicate HistoryHolds(p: Plan) {
    (forall i :: 0 <= i < |p.decisions| - 1 ==> p.decisions[i].verdict.Reject?)
    && (EndsInApproval(p.decisions) <==> p.status.Approved? || p.status.Executing? || p.status.Completed?)
    && (p.status.Rejected? || p.status.Revising? ==> p.decisions != [])
    && (p.status.Draft? ==> p.decisions == [])
    && (!p.status.Draft? ==> ValidSections(p.sections))
    && p.version >= 1 + |p.decisions|
  }

  /** A new plan: a submission has its sections, a draft need not. */
  ghost predicate IsNew(p: Plan) {
    p.version == 1 && p.decisions == [] && (p.status.Draft? || (p.status.InReview? && ValidSections(p.sections)))
  }

  /** `q` is a later version of `p`: the same plan with a longer history. Once approved, the decisions and the sections
      that were approved never change again. */
  ghost predicate Descends(p: Plan, q: Plan) {
    SameIdentity(p, q) && p.decisions <= q.decisions
    && (EndsInApproval(p.decisions) ==> q.decisions == p.decisions && q.sections == p.sections)
  }

  lemma DescendsTransitive(p: Plan, q: Plan, r: Plan)
    requires Descends(p, q) && Descends(q, r)
    ensures Descends(p, r)
  {
  }

  lemma AppliedKeepsHistory(p: Plan, op: Operation, now: int)
    requires HistoryHolds(p) && Precheck(op).None? && Applied(p, op, now).Ok?
    ensures var next := Applied(p, op, now).value;
            HistoryHolds(next) && Descends(p, next) && next.version == p.version + 1
  {
    match op
    case Decide(_, _, _) => DecisionKeepsHistory(p, op, now);
    case Transition(_, _) =>
    case Revise(_, _) =>
  }

  lemma DecisionKeepsHistory(p: Plan, op: Operation, now: int)
    requires HistoryHolds(p) && op.Decide? && Applied(p, op, now).Ok?
    ensures HistoryHolds(Applied(p, op, now).value)
  {
    var next := Applied(p, op, now).value;
    assert forall i :: 0 <= i < |p.decisions| ==> p.decisions[i].verdict.Reject? && next.decisions[i] == p.decisions[i];
  }

  datatype Attempted = Attempted(op: Operation, now: int)

  /** A plan after some attempted operations, and how many of them took effect. */
  function AfterAll(p: Plan, attempts: seq<Attempted>): (Plan, nat)
    decreases attempts
  {
    if attempts == [] then (p, 0)
    else
      var a := attempts[0];
      match (if Precheck(a.op).Some? then Err(InvalidInput) else Applied(p, a.op, a.now))
      case Err(_) => AfterAll(p, attempts[1..])
      case Ok(next) => var (end, count) := AfterAll(next, attempts[1..]); (end, count + 1)
  }

  /** Over every run of a plan, whatever is attempted in whatever order. */
  lemma {:induction false} HistoryOverRuns(p: Plan, attempts: seq<Attempted>)
    requires HistoryHolds(p)
    ensures var (end, count) := AfterAll(p, attempts);
            HistoryHolds(end) && Descends(p, end) && end.version == p.version + count
    decreases |attempts|
  {
    if attempts != [] {
      var a := attempts[0];
      if Precheck(a.op).None? && Applied(p, a.op, a.now).Ok? {
        AppliedKeepsHistory(p, a.op, a.now);
        var next := Applied(p, a.op, a.now).value;
        HistoryOverRuns(next, attempts[1..]);
        DescendsTransitive(p, next, AfterAll(next, attempts[1..]).0);
      } else {
        HistoryOverRuns(p, attempts[1..]);
      }
    }
  }

  lemma NewPlanHistory(p: Plan, attempts: seq<Attempted>)
    requires IsNew(p)
    ensures var (end, count) := AfterAll(p, attempts); HistoryHolds(end) && end.version == 1 + count
  {
    HistoryOverRuns(p, attempts);
  }

  // ----- The guard -----

  /** Whether a tool may run under a plan; `protects` and `exempts` are the two rule lists applied to a tool name. */
  function AssertExecutable(tool: string, plan: Option<Plan>, protects: string -> bool, exempts: string -> bool): bool {
    if exempts(tool) then true
    else if !protects(tool) then true
    else plan.Some? && (plan.value.status.Approved? || plan.value.status.Executing?)
  }

  /** A protected tool that is not exempt runs exactly under a plan whose last decision, and no earlier one, approved
      it and which is not completed. */
  lemma GuardNeedsApproval(tool: string, plan: Option<Plan>, protects: string -> bool, exempts: string -> bool)
    requires plan.Some? ==> HistoryHolds(plan.value)
    requires protects(tool) && !exempts(tool)
    ensures AssertExecutable(tool, plan, protects, exempts)
      <==> plan.Some? && EndsInApproval(plan.value.decisions) && !plan.value.status.Completed?
  {
  }
}
