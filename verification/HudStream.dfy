/** The replayable event stream of the HUD (packages/dsh-luban-hud/src/http-api.ts, HudEventStream). */
module HudStream {
  import opened Wrappers

  const REPLAY_LIMIT := 256

  datatype Frame = Frame(id: nat, envelope: string)

  /** A frame on its way to a client: a snapshot that starts it off afresh, or one of the published frames. */
  datatype Sent = Baseline(frame: Frame) | Live(frame: Frame)

  /** How a write ends: accepted; accepted by a buffer that is now full; thrown; or not tried, the socket being gone. */
  datatype Write = Accepted | BufferFull | Thrown | Gone

  /** One connection: the last event id it asked to resume from, what was written to it, and whether it is still fed. */
  datatype Connection = Connection(requested: Option<nat>, sent: seq<Sent>, open: bool)

  /** The stream of one account. `history` is every frame it ever published. */
  datatype Stream = Stream(sequence: nat, events: seq<Frame>, connections: seq<Connection>, history: seq<Frame>)

  const EMPTY := Stream(0, [], [], [])

  // ----- Steps -----

  /** One write to a connection; anything but an accepting write closes it. */
  function Wrote(c: Connection, s: Sent, w: Write): Connection {
    if !c.open then c
    else
      match w
      case Accepted => c.(sent := c.sent + [s])
      case BufferFull => c.(sent := c.sent + [s], open := false)
      case Thrown => c.(open := false)
      case Gone => c.(open := false)
  }

  /** The replay of a new connection, frame by frame until a write closes it. */
  function WroteAll(c: Connection, pending: seq<Sent>, writes: nat -> Write, k: nat): Connection
    requires k <= |pending|
    decreases |pending| - k
  {
    if k == |pending| || !c.open then c else WroteAll(Wrote(c, pending[k], writes(k)), pending, writes, k + 1)
  }

  function After(events: seq<Frame>, id: nat): seq<Frame> {
    if events == [] then [] else (if events[0].id > id then [events[0]] else []) + After(events[1..], id)
  }

  function AsLive(frames: seq<Frame>): seq<Sent> {
    seq(|frames|, i requires 0 <= i < |frames| => Live(frames[i]))
  }

  /** What a connecting client is owed. */
  function Pending(sequence: nat, events: seq<Frame>, requested: Option<nat>, baseline: string): seq<Sent> {
    var oldest := if events != [] then events[0].id else sequence;
    if requested.None? || requested.value < oldest - 1 || requested.value > sequence
    then [Baseline(Frame(sequence, baseline))]
    else AsLive(After(events, requested.value))
  }

  function Shifted(events: seq<Frame>): seq<Frame> {
    if |events| > REPLAY_LIMIT then events[1..] else events
  }

  /** One frame to every connection. */
  function FedAll(all: seq<Connection>, s: Sent, writes: nat -> Write): seq<Connection> {
    seq(|all|, i requires 0 <= i < |all| => Wrote(all[i], s, writes(i)))
  }

  function Published(st: Stream, envelope: string, writes: nat -> Write): Stream {
    var frame := Frame(st.sequence + 1, envelope);
    Stream(st.sequence + 1, Shifted(st.events + [frame]),
           FedAll(st.connections, Live(frame), writes),
           st.history + [frame])
  }

  function Connected(st: Stream, requested: Option<nat>, baseline: string, writes: nat -> Write): Stream {
    var pending := Pending(st.sequence, st.events, requested, baseline);
    st.(connections := st.connections + [WroteAll(Connection(requested, [], true), pending, writes, 0)])
  }

  function Closed(st: Stream, i: nat): Stream {
    if i < |st.connections| then st.(connections := st.connections[i := st.connections[i].(open := false)]) else st
  }

  datatype Event =
    | Publish(envelope: string, writes: nat -> Write)
    | Connect(requested: Option<nat>, baseline: string, writes: nat -> Write)
    | Close(connection: nat)

  function Step(st: Stream, e: Event): Stream {
    match e
    case Publish(envelope, writes) => Published(st, envelope, writes)
    case Connect(requested, baseline, writes) => Connected(st, requested, baseline, writes)
    case Close(i) => Closed(st, i)
  }

  function Run(st: Stream, events: seq<Event>): Stream
    decreases events
  {
    if events == [] then st else Run(Step(st, events[0]), events[1..])
  }

  // ----- The object -----

  /** `map.get(key) ?? missing` */
  function Lookup<T>(entries: map<string, T>, key: string, missing: T): T {
    if key in entries then entries[key] else missing
  }

  class HudEventStream {
    var events: map<string, seq<Frame>>
    var sequences: map<string, nat>
    var connections: map<string, seq<Connection>>
    var disposed: bool
    ghost var history: map<string, seq<Frame>>

    constructor ()
      ensures !disposed && forall account :: Of(account) == EMPTY
    {
      events, sequences, connections, disposed := map[], map[], map[], false;
      history := map[];
    }

    ghost function Of(account: string): Stream
      reads this
    {
      Stream(Lookup(sequences, account, 0), Lookup(events, account, []), Lookup(connections, account, []),
             Lookup(history, account, []))
    }

    method PublishEnvelope(account: string, envelope: string, writes: nat -> Write)
      modifies this
      ensures disposed == old(disposed)
      ensures Of(account) == if disposed then old(Of(account)) else Published(old(Of(account)), envelope, writes)
      ensures forall other :: other != account ==> Of(other) == old(Of(other))
    {
      if disposed {
        return;
      }
      ghost var was := Of(account);
      var sequence := Lookup(sequences, account, 0) + 1;
      var frame := Frame(sequence, envelope);
      var buffer := Lookup(events, account, []) + [frame];
      if |buffer| > REPLAY_LIMIT {
        buffer := buffer[1..];
      }
      assert buffer == Shifted(was.events + [frame]);
      var fed := Feed(Lookup(connections, account, []), Live(frame), writes);
      history := history[account := Lookup(history, account, []) + [frame]];
      sequences := sequences[account := sequence];
      events := events[account := buffer];
      connections := connections[account := fed];
    }

    /** Closes every connection and forgets everything; later calls find the stream disposed. */
    method Dispose()
      modifies this
      ensures disposed && forall account :: Of(account) == EMPTY || (old(disposed) && Of(account) == old(Of(account)))
    {
      if disposed {
        return;
      }
      disposed := true;
      events, sequences, connections := map[], map[], map[];
      history := map[];
    }

    /** Writes a frame to every connection that is still open. */
    method Feed(all: seq<Connection>, s: Sent, writes: nat -> Write) returns (fed: seq<Connection>)
      ensures fed == FedAll(all, s, writes)
    {
      fed := [];
      for i := 0 to |all|
        invariant |fed| == i && forall j :: 0 <= j < i ==> fed[j] == Wrote(all[j], s, writes(j))
      {
        fed := fed + [Wrote(all[i], s, writes(i))];
      }
    }

    method ConnectClient(account: string, requested: Option<nat>, baseline: string,
                         writes: nat -> Write) returns (ok: bool)
      modifies this
      ensures ok == !old(disposed) && disposed == old(disposed)
      ensures Of(account) == if ok then Connected(old(Of(account)), requested, baseline, writes) else old(Of(account))
      ensures forall other :: other != account ==> Of(other) == old(Of(other))
    {
      if disposed {
        return false;
      }
      var buffer := Lookup(events, account, []);
      var sequence := Lookup(sequences, account, 0);
      var pending := Pending(sequence, buffer, requested, baseline);
      var client := Replay(Connection(requested, [], true), pending, writes);
      connections := connections[account := Lookup(connections, account, []) + [client]];
      return true;
    }

    method Replay(initial: Connection, pending: seq<Sent>, writes: nat -> Write) returns (client: Connection)
      ensures client == WroteAll(initial, pending, writes, 0)
    {
      client := initial;
      var k := 0;
      while k < |pending| && client.open
        invariant k <= |pending| && WroteAll(client, pending, writes, k) == WroteAll(initial, pending, writes, 0)
      {
        client := Wrote(client, pending[k], writes(k));
        k := k + 1;
      }
    }
  }

  // ----- The buffer -----

  /** The buffer is the end of the history: the last min(sequence, 256) frames, numbered up to the sequence. */
  ghost predicate BufferHolds(st: Stream) {
    |st.history| == st.sequence
    && (forall i :: 0 <= i < |st.history| ==> st.history[i].id == i + 1)
    && |st.events| == (if st.sequence < REPLAY_LIMIT then st.sequence else REPLAY_LIMIT)
    && st.events == st.history[st.sequence - |st.events|..]
  }

  lemma ShiftedIsEnd(events: seq<Frame>, history: seq<Frame>, frame: Frame)
    requires |events| <= REPLAY_LIMIT && |events| <= |history| && events == history[|history| - |events|..]
    ensures var (more, kept) := (history + [frame], Shifted(events + [frame]));
            kept == more[|more| - |kept|..]
            && |kept| == (if |events| < REPLAY_LIMIT then |events| + 1 else REPLAY_LIMIT)
  {
    var from := |history| - |events|;
    assert (history + [frame])[from..] == events + [frame];
    assert (events + [frame])[1..] == (history + [frame])[from + 1..];
  }

  lemma PublishedKeepsBuffer(st: Stream, envelope: string, writes: nat -> Write)
    requires BufferHolds(st)
    ensures BufferHolds(Published(st, envelope, writes))
  {
    ShiftedIsEnd(st.events, st.history, Frame(st.sequence + 1, envelope));
  }

  lemma {:induction false} AfterIsSuffix(events: seq<Frame>, first: nat, id: nat)
    requires forall i :: 0 <= i < |events| ==> events[i].id == first + i
    requires first <= id + 1 <= first + |events|
    ensures After(events, id) == events[id + 1 - first..]
  {
    if events != [] {
      AfterIsSuffix(events[1..], first + 1, if id + 1 == first then id + 1 else id);
      if id + 1 == first {
        AllAfter(events[1..], first + 1, id);
        assert events == [events[0]] + events[1..];
      }
    }
  }

  lemma {:induction false} AllAfter(events: seq<Frame>, first: nat, id: nat)
    requires forall i :: 0 <= i < |events| ==> events[i].id == first + i
    requires id < first
    ensures After(events, id) == events
  {
    if events != [] {
      AllAfter(events[1..], first + 1, id);
      assert events == [events[0]] + events[1..];
    }
  }

  lemma EndOfEnd(history: seq<Frame>, from: nat, k: nat)
    requires from <= k <= |history|
    ensures history[from..][k - from..] == history[k..]
  {
  }

  lemma EventsAreNumbered(events: seq<Frame>, history: seq<Frame>, from: nat)
    requires from <= |history| && events == history[from..]
    requires forall i :: 0 <= i < |history| ==> history[i].id == i + 1
    ensures forall i :: 0 <= i < |events| ==> events[i].id == from + 1 + i
  {
  }

  /** The frames of the buffer after an id are those of the history. */
  lemma AfterOfEnd(events: seq<Frame>, history: seq<Frame>, from: nat, id: nat)
    requires from <= id <= |history| && events == history[from..]
    requires forall i :: 0 <= i < |history| ==> history[i].id == i + 1
    ensures After(events, id) == history[id..]
  {
    assert After(events, id) == events[id - from..] by {
      EventsAreNumbered(events, history, from);
      AfterIsSuffix(events, from + 1, id);
    }
    EndOfEnd(history, from, id);
  }

  lemma OldestIs(st: Stream)
    requires BufferHolds(st)
    ensures st.events != [] ==> st.events[0].id == st.sequence - |st.events| + 1
  {
    if st.events != [] {
      assert st.events[0] == st.history[st.sequence - |st.events|];
    }
  }

  /** What is owed is a baseline, or exactly the published frames after the requested one. */
  lemma PendingIsOwed(st: Stream, requested: Option<nat>, baseline: string)
    requires BufferHolds(st)
    ensures var pending := Pending(st.sequence, st.events, requested, baseline);
            pending == [Baseline(Frame(st.sequence, baseline))]
            || (requested.Some? && requested.value <= st.sequence && pending == AsLive(st.history[requested.value..]))
  {
    var from := st.sequence - |st.events|;
    OldestIs(st);
    if requested.Some? && from <= requested.value <= st.sequence {
      AfterOfEnd(st.events, st.history, from, requested.value);
    }
  }

  // ----- What a connection is sent -----

  /** Frames after an already known id: each is a baseline or the very next frame. */
  ghost predicate Gapless(known: Option<nat>, sent: seq<Sent>)
    decreases |sent|
  {
    sent == []
    || ((sent[0].Baseline? || known == Some(sent[0].frame.id - 1)) && Gapless(Some(sent[0].frame.id), sent[1..]))
  }

  /** The id a client would resume from. */
  function LastId(known: Option<nat>, received: seq<Sent>): Option<nat> {
    if received == [] then known else Some(received[|received| - 1].frame.id)
  }

  /** A connection has no gaps, its live frames are the published ones, and an open one has everything published. */
  ghost predicate ConnectionHolds(st: Stream, c: Connection) {
    Gapless(c.requested, c.sent)
    && (forall i :: 0 <= i < |c.sent| ==> Genuine(st, c.sent[i]))
    && (c.open ==> LastId(c.requested, c.sent) == Some(st.sequence))
  }

  ghost predicate Genuine(st: Stream, s: Sent) {
    s.Live? ==> 0 < s.frame.id <= |st.history| && st.history[s.frame.id - 1] == s.frame
  }

  ghost predicate Inv(st: Stream) {
    BufferHolds(st) && forall i :: 0 <= i < |st.connections| ==> ConnectionHolds(st, st.connections[i])
  }

  lemma {:induction false} GaplessAppend(known: Option<nat>, a: seq<Sent>, b: seq<Sent>)
    requires Gapless(known, a) && Gapless(LastId(known, a), b)
    ensures Gapless(known, a + b)
    decreases |a|
  {
    if a == [] {
      assert a + b == b;
    } else {
      assert (a + b)[1..] == a[1..] + b;
      assert LastId(known, a) == LastId(Some(a[0].frame.id), a[1..]);
      GaplessAppend(Some(a[0].frame.id), a[1..], b);
    }
  }

  lemma {:induction false} GaplessPrefix(known: Option<nat>, a: seq<Sent>, b: seq<Sent>)
    requires a <= b && Gapless(known, b)
    ensures Gapless(known, a)
    decreases |a|
  {
    if a != [] {
      assert a[1..] <= b[1..];
      GaplessPrefix(Some(a[0].frame.id), a[1..], b[1..]);
    }
  }

  lemma WroteKeepsConnection(st: Stream, t: Stream, c: Connection, frame: Frame, w: Write)
    requires ConnectionHolds(st, c) && frame.id == st.sequence + 1 == t.sequence
    requires t.history == st.history + [frame] && |st.history| == st.sequence
    ensures ConnectionHolds(t, Wrote(c, Live(frame), w))
  {
    var d := Wrote(c, Live(frame), w);
    assert forall i :: 0 <= i < |c.sent| ==> Genuine(t, c.sent[i]) by {
      forall i | 0 <= i < |c.sent| ensures Genuine(t, c.sent[i]) {
        assert Genuine(st, c.sent[i]);
      }
    }
    if d.sent != c.sent {
      assert Gapless(LastId(c.requested, c.sent), [Live(frame)]);
      GaplessAppend(c.requested, c.sent, [Live(frame)]);
    }
  }

  /** The pending frames of a replay are sent one after the other from the requested id on. */
  lemma {:induction false} ReplayHolds(st: Stream, c: Connection, pending: seq<Sent>, writes: nat -> Write, k: nat)
    requires k <= |pending| && Gapless(c.requested, c.sent) && forall i :: 0 <= i < |c.sent| ==> Genuine(st, c.sent[i])
    requires Gapless(LastId(c.requested, c.sent), pending[k..])
    requires forall i :: 0 <= i < |pending| ==> Genuine(st, pending[i])
    requires c.open ==> LastId(LastId(c.requested, c.sent), pending[k..]) == Some(st.sequence)
    ensures ConnectionHolds(st, WroteAll(c, pending, writes, k))
    decreases |pending| - k
  {
    if k < |pending| && c.open {
      var d := Wrote(c, pending[k], writes(k));
      assert pending[k..][1..] == pending[k + 1..];
      if d.sent != c.sent {
        GaplessAppend(c.requested, c.sent, [pending[k]]);
      } else {
        assert !d.open;
      }
      if d.open {
        assert LastId(d.requested, d.sent) == Some(pending[k].frame.id);
        ReplayHolds(st, d, pending, writes, k + 1);
      }
    }
  }

  lemma GaplessStep(known: Option<nat>, s: Sent, rest: seq<Sent>)
    requires s.Baseline? || known == Some(s.frame.id - 1)
    requires Gapless(Some(s.frame.id), rest)
    ensures Gapless(known, [s] + rest) && LastId(known, [s] + rest) == LastId(Some(s.frame.id), rest)
  {
    assert ([s] + rest)[1..] == rest;
  }

  /** Frames numbered one after the other are live frames without a gap. */
  lemma {:induction false} NumberedIsGapless(frames: seq<Frame>, from: nat)
    requires forall i :: 0 <= i < |frames| ==> frames[i].id == from + 1 + i
    ensures Gapless(Some(from), AsLive(frames)) && LastId(Some(from), AsLive(frames)) == Some(from + |frames|)
  {
    if frames != [] {
      var (s, rest) := (Live(frames[0]), AsLive(frames[1..]));
      NumberedIsGapless(frames[1..], from + 1);
      GaplessStep(Some(from), s, rest);
      assert AsLive(frames) == [s] + rest;
    }
  }

  lemma HistoryIsGapless(st: Stream, from: nat)
    requires BufferHolds(st) && from <= st.sequence
    ensures Gapless(Some(from), AsLive(st.history[from..]))
    ensures LastId(Some(from), AsLive(st.history[from..])) == Some(st.sequence)
  {
    NumberedIsGapless(st.history[from..], from);
  }

  /** What the frames of a connection are checked against: two streams that have sent the same. */
  lemma SameHistoryHolds(st: Stream, t: Stream, c: Connection, d: Connection)
    requires ConnectionHolds(st, c) && t.history == st.history && t.sequence == st.sequence && t.events == st.events
    requires d.requested == c.requested && d.sent == c.sent && (d.open ==> c.open)
    ensures ConnectionHolds(t, d)
  {
    assert forall j :: 0 <= j < |c.sent| ==> (Genuine(st, c.sent[j]) <==> Genuine(t, c.sent[j]));
  }

  /** What is owed leads from the requested id to the latest frame. */
  lemma PendingLeadsOn(st: Stream, requested: Option<nat>, baseline: string)
    requires BufferHolds(st)
    ensures var pending := Pending(st.sequence, st.events, requested, baseline);
            Gapless(requested, pending) && LastId(requested, pending) == Some(st.sequence)
            && forall i :: 0 <= i < |pending| ==> Genuine(st, pending[i])
  {
    var pending := Pending(st.sequence, st.events, requested, baseline);
    PendingIsOwed(st, requested, baseline);
    if pending == [Baseline(Frame(st.sequence, baseline))] {
      BaselineLeadsOn(st, requested, pending);
    } else {
      HistoryLeadsOn(st, requested.value, pending);
    }
  }

  lemma BaselineLeadsOn(st: Stream, requested: Option<nat>, pending: seq<Sent>)
    requires |pending| == 1 && pending[0].Baseline? && pending[0].frame.id == st.sequence
    ensures Gapless(requested, pending) && LastId(requested, pending) == Some(st.sequence)
    ensures forall i :: 0 <= i < |pending| ==> Genuine(st, pending[i])
  {
    assert pending[1..] == [];
  }

  lemma HistoryLeadsOn(st: Stream, from: nat, pending: seq<Sent>)
    requires BufferHolds(st) && from <= st.sequence && pending == AsLive(st.history[from..])
    ensures Gapless(Some(from), pending) && LastId(Some(from), pending) == Some(st.sequence)
    ensures forall i :: 0 <= i < |pending| ==> Genuine(st, pending[i])
  {
    HistoryIsGapless(st, from);
    forall i | 0 <= i < |pending| ensures Genuine(st, pending[i]) {
      assert pending[i] == Live(st.history[from + i]) && st.history[from + i].id == from + i + 1;
    }
  }

  lemma OwedHolds(st: Stream, requested: Option<nat>, pending: seq<Sent>, writes: nat -> Write)
    requires Gapless(requested, pending) && LastId(requested, pending) == Some(st.sequence)
    requires forall i :: 0 <= i < |pending| ==> Genuine(st, pending[i])
    ensures ConnectionHolds(st, WroteAll(Connection(requested, [], true), pending, writes, 0))
  {
    assert pending[0..] == pending;
    ReplayHolds(st, Connection(requested, [], true), pending, writes, 0);
  }

  lemma NewConnectionHolds(st: Stream, requested: Option<nat>, baseline: string, writes: nat -> Write)
    requires Inv(st)
    ensures ConnectionHolds(st, WroteAll(Connection(requested, [], true),
                                         Pending(st.sequence, st.events, requested, baseline), writes, 0))
  {
    PendingLeadsOn(st, requested, baseline);
    OwedHolds(st, requested, Pending(st.sequence, st.events, requested, baseline), writes);
  }

  lemma ConnectedKeepsInv(st: Stream, requested: Option<nat>, baseline: string, writes: nat -> Write)
    requires Inv(st)
    ensures Inv(Connected(st, requested, baseline, writes))
  {
    var t := Connected(st, requested, baseline, writes);
    NewConnectionHolds(st, requested, baseline, writes);
    forall i | 0 <= i < |t.connections| ensures ConnectionHolds(t, t.connections[i]) {
      SameHistoryHolds(st, t, t.connections[i], t.connections[i]);
    }
  }

  lemma PublishedKeepsInv(st: Stream, envelope: string, writes: nat -> Write)
    requires Inv(st)
    ensures Inv(Published(st, envelope, writes))
  {
    var t := Published(st, envelope, writes);
    PublishedKeepsBuffer(st, envelope, writes);
    var frame := Frame(st.sequence + 1, envelope);
    forall i | 0 <= i < |t.connections| ensures ConnectionHolds(t, t.connections[i]) {
      WroteKeepsConnection(st, t, st.connections[i], frame, writes(i));
    }
  }

  lemma ClosedKeepsInv(st: Stream, k: nat)
    requires Inv(st)
    ensures Inv(Closed(st, k))
  {
    var t := Closed(st, k);
    forall i | 0 <= i < |t.connections| ensures ConnectionHolds(t, t.connections[i]) {
      SameHistoryHolds(st, t, st.connections[i], t.connections[i]);
    }
  }

  lemma StepKeepsInv(st: Stream, e: Event)
    requires Inv(st)
    ensures Inv(Step(st, e))
  {
    match e
    case Publish(envelope, writes) => PublishedKeepsInv(st, envelope, writes);
    case Connect(requested, baseline, writes) => ConnectedKeepsInv(st, requested, baseline, writes);
    case Close(k) => ClosedKeepsInv(st, k);
  }

  /** Over every run of publications, connections and disconnections. */
  lemma {:induction false} RunKeepsInv(st: Stream, events: seq<Event>)
    requires Inv(st)
    ensures Inv(Run(st, events))
    decreases |events|
  {
    if events != [] {
      StepKeepsInv(st, events[0]);
      RunKeepsInv(Step(st, events[0]), events[1..]);
    }
  }

  // ----- A client that reconnects -----

  /** One visit: a connection, and the part of what was sent that reached the client before it was cut off. */
  datatype Visit = Visit(connection: Connection, received: seq<Sent>)

  /** A client that resumes each time from the last id it has received. */
  ghost predicate Resumes(st: Stream, known: Option<nat>, visits: seq<Visit>)
    decreases |visits|
  {
    visits == []
    || (visits[0].connection in st.connections && visits[0].received <= visits[0].connection.sent
        && visits[0].connection.requested == known
        && Resumes(st, LastId(known, visits[0].received), visits[1..]))
  }

  function AllReceived(visits: seq<Visit>): seq<Sent> {
    if visits == [] then [] else visits[0].received + AllReceived(visits[1..])
  }

  /** Gap-free replay: over all its connections, each frame the client receives is a baseline or the successor of the
      frame it received before. */
  lemma {:induction false} ReplayIsGapless(st: Stream, known: Option<nat>, visits: seq<Visit>)
    requires Inv(st) && Resumes(st, known, visits)
    ensures Gapless(known, AllReceived(visits))
    decreases |visits|
  {
    if visits != [] {
      var v := visits[0];
      var i :| 0 <= i < |st.connections| && st.connections[i] == v.connection;
      assert ConnectionHolds(st, st.connections[i]);
      GaplessPrefix(known, v.received, v.connection.sent);
      ReplayIsGapless(st, LastId(known, v.received), visits[1..]);
      GaplessAppend(known, v.received, AllReceived(visits[1..]));
    }
  }

  lemma GapFreeReplay(events: seq<Event>, visits: seq<Visit>)
    requires Resumes(Run(EMPTY, events), None, visits)
    ensures Gapless(None, AllReceived(visits))
  {
    RunKeepsInv(EMPTY, events);
    ReplayIsGapless(Run(EMPTY, events), None, visits);
  }
}
