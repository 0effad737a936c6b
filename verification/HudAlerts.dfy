/** One taskboard card per critical episode (packages/dsh-luban-hud/src/alerts.ts), as steps between awaits. */
module HudAlerts {
  import opened Wrappers

  /** Where the running operation of an account waits: for the query or for the creation. */
  datatype Phase = Querying | Creating

  datatype Operation = Operation(episode: nat, phase: Phase)

  /** One account: its level and episode, the last episode it settled, the operations chained behind the running one,
      and the episodes for which a card was successfully created, oldest first. */
  datatype Account = Account(critical: bool, episode: nat, reported: nat, chained: seq<nat>, running: Option<Operation>,
                             created: seq<nat>)

  const NEW_ACCOUNT := Account(false, 0, 0, [], None, [])

  datatype Event =
    | Observe(critical: bool)
    | StartNext
    | QueryReturns(existing: Option<nat>)   // None: the query was rejected
    | CreateReturns(ok: bool)
    | Dispose

  datatype Sink = Sink(account: Account, disposed: bool)

  predicate IsCurrent(s: Sink, episode: nat) {
    !s.disposed && s.account.critical && s.account.episode == episode
  }

  function Observed(s: Sink, critical: bool): Sink {
    var a := s.account;
    if s.disposed then s
    else if !critical then s.(account := a.(critical := false))
    else
      var episode := if a.critical then a.episode else a.episode + 1;
      s.(account := a.(critical := true, episode := episode, chained := a.chained + [episode]))
  }

  function Started(s: Sink): Sink {
    var a := s.account;
    if a.running.Some? || a.chained == [] then s
    else
      var episode := a.chained[0];
      var run := IsCurrent(s, episode) && a.reported != episode;
      s.(account := a.(chained := a.chained[1..], running := if run then Some(Operation(episode, Querying)) else None))
  }

  function QueryReturned(s: Sink, existing: Option<nat>): Sink {
    var a := s.account;
    if a.running.None? || !a.running.value.phase.Querying? then s
    else
      var episode := a.running.value.episode;
      if existing.None? || !IsCurrent(s, episode) then s.(account := a.(running := None))
      else if existing.value == 0 then s.(account := a.(running := Some(Operation(episode, Creating))))
      else s.(account := a.(running := None, reported := episode))
  }

  function CreateReturned(s: Sink, ok: bool): Sink {
    var a := s.account;
    if a.running.None? || !a.running.value.phase.Creating? then s
    else if !ok then s.(account := a.(running := None))
    else
      var episode := a.running.value.episode;
      s.(account := a.(running := None, created := a.created + [episode],
                       reported := if IsCurrent(s, episode) then episode else a.reported))
  }

  function Step(s: Sink, e: Event): Sink {
    match e
    case Observe(critical) => Observed(s, critical)
    case StartNext => Started(s)
    case QueryReturns(existing) => QueryReturned(s, existing)
    case CreateReturns(ok) => CreateReturned(s, ok)
    case Dispose => if s.disposed then s else Sink(s.account.(critical := false), true)
  }

  function Run(s: Sink, events: seq<Event>): Sink
    decreases events
  {
    if events == [] then s else Run(Step(s, events[0]), events[1..])
  }

  // ----- One card per episode -----

  ghost predicate OncePerEpisode(created: seq<nat>) {
    forall i, j :: 0 <= i < j < |created| ==> created[i] != created[j]
  }

  /** An episode that has its card is settled or over; the running operation works for an episode without a card. */
  ghost predicate Inv(s: Sink) {
    var a := s.account;
    OncePerEpisode(a.created)
    && (forall e :: e in a.created ==> e <= a.episode && (a.reported == e || !IsCurrent(s, e)))
    && (forall i :: 0 <= i < |a.chained| ==> a.chained[i] <= a.episode)
    && (a.running.Some? ==> a.running.value.episode <= a.episode && a.running.value.episode !in a.created)
  }

  lemma StepKeepsInv(s: Sink, e: Event)
    requires Inv(s)
    ensures Inv(Step(s, e))
  {
    match e
    case CreateReturns(ok) => CreatedKeepsInv(s, ok);
    case Observe(critical) =>
    case StartNext =>
    case QueryReturns(existing) =>
    case Dispose =>
  }

  lemma CreatedKeepsInv(s: Sink, ok: bool)
    requires Inv(s)
    ensures Inv(CreateReturned(s, ok))
  {
    var a, b := s.account, CreateReturned(s, ok).account;
    if b.created != a.created {
      forall i, j | 0 <= i < j < |b.created| ensures b.created[i] != b.created[j] {
        assert a.created[i] in a.created;
      }
    }
  }

  lemma {:induction false} RunKeepsInv(s: Sink, events: seq<Event>)
    requires Inv(s)
    ensures Inv(Run(s, events))
    decreases |events|
  {
    if events != [] {
      StepKeepsInv(s, events[0]);
      RunKeepsInv(Step(s, events[0]), events[1..]);
    }
  }

  /** Over every interleaving of observations, level changes, failures and disposal. */
  lemma OneCardPerEpisode(events: seq<Event>)
    ensures OncePerEpisode(Run(Sink(NEW_ACCOUNT, false), events).account.created)
  {
    RunKeepsInv(Sink(NEW_ACCOUNT, false), events);
  }

  // ----- What an episode is, and what ends it -----

  /** While the level stays critical the episode stays the same; leaving and re-entering it starts another one. */
  predicate StaysCritical(events: seq<Event>) {
    forall e :: e in events ==> e != Dispose && e != Observe(false)
  }

  lemma {:induction false} EpisodeIsContinuous(s: Sink, events: seq<Event>)
    requires !s.disposed && s.account.critical
    ensures var end := Run(s, events);
            end.account.episode >= s.account.episode
            && (IsCurrent(end, s.account.episode) <==> StaysCritical(events))
    decreases |events|
  {
    if events != [] {
      var next := Step(s, events[0]);
      assert events == [events[0]] + events[1..];
      if events[0] == Dispose || events[0] == Observe(false) {
        assert events[0] in events;
        EndedStaysEnded(next, s.account.episode, events[1..]);
      } else {
        EpisodeIsContinuous(next, events[1..]);
        assert forall e :: e in events <==> e == events[0] || e in events[1..];
        assert next.account.episode == s.account.episode;
      }
    }
  }

  /** An episode that has ended never becomes current again. */
  lemma {:induction false} EndedStaysEnded(s: Sink, episode: nat, events: seq<Event>)
    requires episode <= s.account.episode && !IsCurrent(s, episode)
    ensures !IsCurrent(Run(s, events), episode) && s.account.episode <= Run(s, events).account.episode
    decreases |events|
  {
    if events != [] {
      EndedStaysEnded(Step(s, events[0]), episode, events[1..]);
    }
  }

  predicate IsCreating(s: Sink, episode: nat) {
    s.account.running == Some(Operation(episode, Creating))
  }

  function CountOf(created: seq<nat>, episode: nat): nat {
    multiset(created)[episode]
  }

  /** Once an episode has ended, only a creation that was already under way can still produce its card; any operation
      whose currency check is still to come creates nothing. */
  lemma {:induction false} EndedCreatesNothing(s: Sink, episode: nat, events: seq<Event>)
    requires Inv(s) && episode <= s.account.episode && !IsCurrent(s, episode) && !IsCreating(s, episode)
    ensures CountOf(Run(s, events).account.created, episode) == CountOf(s.account.created, episode)
    decreases |events|
  {
    if events != [] {
      var next := Step(s, events[0]);
      StepKeepsInv(s, events[0]);
      EndedStaysEnded(s, episode, [events[0]]);
      assert Run(s, [events[0]]) == next;
      EndedCreatesNothing(next, episode, events[1..]);
    }
  }

  // ----- The object -----

  class TaskboardHudAlertSink {
    var states: map<string, Account>
    var disposed: bool

    constructor ()
      ensures !disposed && forall account :: Of(account) == Sink(NEW_ACCOUNT, false)
    {
      states, disposed := map[], false;
    }

    function Of(account: string): Sink
      reads this
    {
      Sink(if account in states then states[account] else NEW_ACCOUNT, disposed)
    }

    method ObserveLevel(account: string, critical: bool)
      modifies this`states
      ensures Of(account) == Step(old(Of(account)), Observe(critical))
      ensures forall other :: other != account ==> Of(other) == old(Of(other))
    {
      if disposed {
        return;
      }
      var state := if account in states then states[account] else NEW_ACCOUNT;
      if !critical {
        states := states[account := state.(critical := false)];
        return;
      }
      if !state.critical {
        state := state.(critical := true, episode := state.episode + 1);
      }
      states := states[account := state.(chained := state.chained + [state.episode])];
    }

    /** The chained operation begins: its first check, up to the query. */
    method StartOperation(account: string) returns (querying: bool)
      modifies this`states
      ensures Of(account) == Step(old(Of(account)), StartNext)
      ensures forall other :: other != account ==> Of(other) == old(Of(other))
      ensures querying <==> old(Of(account)).account.running.None? && Of(account).account.running.Some?
    {
      var state := if account in states then states[account] else NEW_ACCOUNT;
      if state.running.Some? || state.chained == [] {
        return false;
      }
      var episode := state.chained[0];
      state := state.(chained := state.chained[1..]);
      querying := !disposed && state.critical && state.episode == episode && state.reported != episode;
      if querying {
        state := state.(running := Some(Operation(episode, Querying)));
      }
      states := states[account := state];
    }

    method ResumeAfterQuery(account: string, existing: Option<nat>) returns (creating: bool)
      modifies this`states
      ensures Of(account) == Step(old(Of(account)), QueryReturns(existing))
      ensures forall other :: other != account ==> Of(other) == old(Of(other))
      ensures creating ==>
        existing == Some(0) && exists e :: IsCreating(Of(account), e) && IsCurrent(old(Of(account)), e)
    {
      var state := if account in states then states[account] else NEW_ACCOUNT;
      if state.running.None? || !state.running.value.phase.Querying? {
        return false;
      }
      var episode := state.running.value.episode;
      if existing.None? || disposed || !state.critical || state.episode != episode {
        states := states[account := state.(running := None)];
        return false;
      }
      if existing.value == 0 {
        states := states[account := state.(running := Some(Operation(episode, Creating)))];
        assert IsCreating(Of(account), episode);
        return true;
      }
      states := states[account := state.(running := None, reported := episode)];
      return false;
    }

    method ResumeAfterCreate(account: string, ok: bool)
      modifies this`states
      ensures Of(account) == Step(old(Of(account)), CreateReturns(ok))
      ensures forall other :: other != account ==> Of(other) == old(Of(other))
    {
      var state := if account in states then states[account] else NEW_ACCOUNT;
      if state.running.None? || !state.running.value.phase.Creating? {
        return;
      }
      var episode := state.running.value.episode;
      state := state.(running := None);
      if ok {
        state := state.(created := state.created + [episode]);
        if !disposed && state.critical && state.episode == episode {
          state := state.(reported := episode);
        }
      }
      states := states[account := state];
    }

    /** No account is current any more. */
    method DisposeAll()
      modifies this
      ensures forall account :: Of(account) == Step(old(Of(account)), Dispose)
    {
      if disposed {
        return;
      }
      disposed := true;
      states := map account | account in states :: states[account].(critical := false);
    }
  }
}
