/** The incremental server-sent-event filter of the gateway (packages/dsh-luban-auth/src/sidecar.ts). */
module SseFilter {
  import opened Wrappers

  /** What the filter callback does with a block: replace it, drop it, or reject. */
  datatype Verdict = Keep(text: string) | Drop | Throw

  /** The callback may depend on every block it saw before, so its calls and their order matter. */
  type Filter = (seq<string>, string) -> Verdict

  // ----- Block boundaries -----

  /** Length of `\r?\n` at the start of `s`; 0 when it does not match there. */
  function LineEnd(s: string): (n: nat)
    ensures n <= |s|
  {
    if |s| >= 2 && s[0] == '\r' && s[1] == '\n' then 2
    else if |s| >= 1 && s[0] == '\n' then 1
    else 0
  }

  /** Length of `\r?\n\r?\n` at the start of `s`; 0 when it does not match there. */
  function BoundaryLength(s: string): (n: nat)
    ensures n <= |s|
  {
    var first := LineEnd(s);
    var second := LineEnd(s[first..]);
    if first == 0 || second == 0 then 0 else first + second
  }

  datatype Boundary = Boundary(index: nat, length: nat)

  /** The leftmost boundary, as the regular expression finds it. */
  function FindBoundary(s: string): (r: Option<Boundary>)
    ensures r.Some? ==> r.value.length > 0 && r.value.index + r.value.length <= |s|
  {
    if s == "" then None
    else if BoundaryLength(s) > 0 then Some(Boundary(0, BoundaryLength(s)))
    else
      match FindBoundary(s[1..])
      case None => None
      case Some(b) => Some(Boundary(b.index + 1, b.length))
  }

  function Prepend(block: string, cut: (seq<string>, string)): (seq<string>, string) {
    ([block] + cut.0, cut.1)
  }

  /** Cuts a text at its leftmost boundaries: the complete blocks and what is left after the last boundary. */
  function Cut(s: string): (r: (seq<string>, string))
    decreases |s|
  {
    match FindBoundary(s)
    case None => ([], s)
    case Some(b) => Prepend(s[..b.index], Cut(s[b.index + b.length..]))
  }

  // ----- What is emitted for a sequence of blocks -----

  datatype Emission = Emission(seen: seq<string>, output: string, failed: bool)

  /** One block through the callback; nothing happens once it has rejected. */
  function Filtered(filter: Filter, e: Emission, block: string, terminator: string): Emission {
    if e.failed then e
    else
      match filter(e.seen, block)
      case Keep(text) => Emission(e.seen + [block], e.output + text + terminator, false)
      case Drop => Emission(e.seen + [block], e.output, false)
      case Throw => Emission(e.seen + [block], e.output, true)
  }

  function FilteredAll(filter: Filter, e: Emission, blocks: seq<string>): Emission
    decreases blocks
  {
    if blocks == [] then e else FilteredAll(filter, Filtered(filter, e, blocks[0], "\n\n"), blocks[1..])
  }

  const NOTHING := Emission([], "", false)

  /** The meaning of a complete stream: every block in order, then an unterminated rest that is not empty. */
  function WholeStream(filter: Filter, text: string): Emission {
    var (blocks, rest) := Cut(text);
    var e := FilteredAll(filter, NOTHING, blocks);
    if rest == "" then e else Filtered(filter, e, rest, "")
  }

  // ----- The transform as steps over its buffer -----

  datatype State = State(buffer: string, emission: Emission)

  /** Takes complete blocks off the buffer; a rejection leaves the rest where it is. */
  function Drained(filter: Filter, st: State): State
    decreases |st.buffer|
  {
    if st.emission.failed then st
    else
      match FindBoundary(st.buffer)
      case None => st
      case Some(b) =>
        Drained(filter, State(st.buffer[b.index + b.length..],
                              Filtered(filter, st.emission, st.buffer[..b.index], "\n\n")))
  }

  /** A rejected call destroys the stream: it takes no more input. */
  function Transformed(filter: Filter, st: State, chunk: string): State {
    if st.emission.failed then st else Drained(filter, st.(buffer := st.buffer + chunk))
  }

  function TransformedAll(filter: Filter, st: State, chunks: seq<string>): State
    decreases chunks
  {
    if chunks == [] then st else TransformedAll(filter, Transformed(filter, st, chunks[0]), chunks[1..])
  }

  function Flushed(filter: Filter, st: State): State {
    var drained := Drained(filter, st);
    if drained.emission.failed || drained.buffer == "" then drained
    else
      var e := Filtered(filter, drained.emission, drained.buffer, "");
      State(if e.failed then drained.buffer else "", e)
  }

  function Run(filter: Filter, chunks: seq<string>): State {
    Flushed(filter, TransformedAll(filter, State("", NOTHING), chunks))
  }

  function Concat(chunks: seq<string>): string {
    if chunks == [] then "" else chunks[0] + Concat(chunks[1..])
  }

  /** The stream object: the buffer grows by a chunk and is drained in place. `seen` is the callback's own memory. */
  class DshSseFilter {
    const filter: Filter
    var buffer: string
    var seen: seq<string>
    var output: string
    var failed: bool

    constructor (filter: Filter)
      ensures this.filter == filter && Current() == State("", NOTHING)
    {
      this.filter := filter;
      buffer, seen, output, failed := "", [], "", false;
    }

    function Current(): State
      reads this
    {
      State(buffer, Emission(seen, output, failed))
    }

    method Transform(chunk: string)
      requires !failed
      modifies this
      ensures Current() == Transformed(filter, old(Current()), chunk)
    {
      buffer := buffer + chunk;
      DrainCompleteBlocks();
    }

    method Flush()
      requires !failed
      modifies this
      ensures Current() == Flushed(filter, old(Current()))
    {
      DrainCompleteBlocks();
      if failed || buffer == "" {
        return;
      }
      Push(buffer, "");
      if !failed {
        buffer := "";
      }
    }

    /** Hands one block to the callback and pushes what it keeps. */
    method Push(block: string, terminator: string)
      requires !failed
      modifies this`seen, this`output, this`failed
      ensures Current().emission == Filtered(filter, old(Current().emission), block, terminator)
    {
      var verdict := filter(seen, block);
      seen := seen + [block];
      match verdict {
        case Keep(text) => output := output + text + terminator;
        case Drop =>
        case Throw => failed := true;
      }
    }

    method DrainCompleteBlocks()
      requires !failed
      modifies this
      ensures Current() == Drained(filter, old(Current()))
    {
      var boundary := FindBoundary(buffer);
      while boundary.Some? && !failed
        invariant boundary == FindBoundary(buffer) || failed
        invariant Drained(filter, Current()) == Drained(filter, old(Current()))
        decreases |buffer|
      {
        var block := buffer[..boundary.value.index];
        buffer := buffer[boundary.value.index + boundary.value.length..];
        Push(block, "\n\n");
        boundary := FindBoundary(buffer);
      }
    }
  }

  // ----- Boundaries do not move when more text arrives -----

  lemma LineEndStable(a: string, b: string)
    requires LineEnd(a) > 0
    ensures LineEnd(a + b) == LineEnd(a)
  {
  }

  lemma BoundaryLengthStable(a: string, b: string)
    requires BoundaryLength(a) > 0
    ensures BoundaryLength(a + b) == BoundaryLength(a)
  {
    var first := LineEnd(a);
    LineEndStable(a, b);
    assert (a + b)[first..] == a[first..] + b;
    LineEndStable(a[first..], b);
  }

  /** A boundary that starts before another one ends cannot be waiting for more text. */
  lemma NoEarlierBoundary(a: string, b: string)
    requires a != "" && BoundaryLength(a) == 0 && FindBoundary(a[1..]).Some?
    ensures BoundaryLength(a + b) == 0
  {
  }

  lemma {:induction false} FindBoundaryStable(a: string, b: string)
    requires FindBoundary(a).Some?
    ensures FindBoundary(a + b) == FindBoundary(a)
  {
    assert (a + b)[1..] == a[1..] + b;
    if BoundaryLength(a) > 0 {
      BoundaryLengthStable(a, b);
    } else {
      FindBoundaryStable(a[1..], b);
      NoEarlierBoundary(a, b);
    }
  }

  /** `b` is a boundary of `s` and no boundary starts before it. */
  ghost predicate IsLeftmost(s: string, b: Boundary) {
    b.index <= |s| && 0 < b.length == BoundaryLength(s[b.index..])
    && forall i :: 0 <= i < b.index ==> BoundaryLength(s[i..]) == 0
  }

  /** The search finds the leftmost boundary, and finds one whenever there is one. */
  lemma {:induction false} FindBoundaryIsLeftmost(s: string)
    ensures FindBoundary(s).Some? ==> IsLeftmost(s, FindBoundary(s).value)
    ensures FindBoundary(s).None? ==> forall i :: 0 <= i <= |s| ==> BoundaryLength(s[i..]) == 0
  {
    assert s[0..] == s;
    if s != "" && BoundaryLength(s) == 0 {
      FindBoundaryIsLeftmost(s[1..]);
      forall i | 0 < i <= |s| ensures BoundaryLength(s[i..]) == BoundaryLength(s[1..][i - 1..]) {
        assert s[i..] == s[1..][i - 1..];
      }
      if FindBoundary(s).Some? {
        var b := FindBoundary(s[1..]).value;
        assert IsLeftmost(s[1..], b);
        forall i | 0 <= i < b.index + 1 ensures BoundaryLength(s[i..]) == 0 {
          if i > 0 {
            assert BoundaryLength(s[1..][i - 1..]) == 0;
          }
        }
      }
    }
  }

  /** `blocks` and `rest` are what lies between consecutive leftmost boundaries of `s`; nothing is lost or added. */
  ghost predicate IsCut(s: string, blocks: seq<string>, rest: string)
    decreases |blocks|
  {
    if blocks == [] then rest == s && forall i :: 0 <= i <= |s| ==> BoundaryLength(s[i..]) == 0
    else exists b: Boundary :: IsLeftmost(s, b) && FollowsBoundary(s, b, blocks, rest)
  }

  ghost predicate FollowsBoundary(s: string, b: Boundary, blocks: seq<string>, rest: string)
    requires IsLeftmost(s, b) && blocks != []
    decreases |blocks|, 0
  {
    blocks[0] == s[..b.index] && IsCut(s[b.index..][b.length..], blocks[1..], rest)
  }

  lemma {:induction false} CutIsCut(s: string)
    ensures IsCut(s, Cut(s).0, Cut(s).1)
    decreases |s|
  {
    FindBoundaryIsLeftmost(s);
    var found := FindBoundary(s);
    if found.Some? {
      var b := found.value;
      var tail := s[b.index + b.length..];
      CutIsCut(tail);
      CutOnce(s, s[..b.index], tail, b);
      var (blocks, rest) := Cut(s);
      assert s[b.index..][b.length..] == tail && blocks[1..] == Cut(tail).0;
      assert FollowsBoundary(s, b, blocks, rest);
    }
  }

  /** Cuts what an earlier cut left over together with what arrives later. */
  function Resumed(cut: (seq<string>, string), later: string): (seq<string>, string) {
    var next := Cut(cut.1 + later);
    (cut.0 + next.0, next.1)
  }

  lemma ResumedPrepend(block: string, cut: (seq<string>, string), later: string)
    ensures Resumed(Prepend(block, cut), later) == Prepend(block, Resumed(cut, later))
  {
    var next := Cut(cut.1 + later);
    assert [block] + cut.0 + next.0 == [block] + (cut.0 + next.0);
  }

  lemma CutOnce(s: string, block: string, tail: string, at: Boundary)
    requires FindBoundary(s) == Some(at) && block == s[..at.index] && tail == s[at.index + at.length..]
    ensures Cut(s) == Prepend(block, Cut(tail))
  {
    match FindBoundary(s)
    case Some(b) =>
      assert b.index == at.index && b.length == at.length;
      assert Cut(s) == Prepend(s[..b.index], Cut(s[b.index + b.length..]));
  }

  /** Cutting can be interrupted anywhere. */
  lemma {:induction false} CutInPieces(a: string, b: string)
    ensures Cut(a + b) == Resumed(Cut(a), b)
    decreases |a|
  {
    var found := FindBoundary(a);
    if found.None? {
      CutNothing(a, b);
    } else {
      var at := found.value;
      var block, tail := a[..at.index], a[at.index + at.length..];
      FindBoundaryStable(a, b);
      CutOnce(a, block, tail, at);
      AppendSlices(a, b, at.index, at.index + at.length);
      CutOnce(a + b, block, tail + b, at);
      CutInPieces(tail, b);
      ResumedPrepend(block, Cut(tail), b);
    }
  }

  lemma CutNothing(a: string, b: string)
    requires FindBoundary(a).None?
    ensures Cut(a + b) == Resumed(Cut(a), b)
  {
    assert Cut(a) == ([], a);
    assert [] + Cut(a + b).0 == Cut(a + b).0;
  }

  lemma AppendSlices(a: string, b: string, i: nat, j: nat)
    requires i <= j <= |a|
    ensures (a + b)[..i] == a[..i] && (a + b)[j..] == a[j..] + b
  {
  }

  lemma CutRestIsUncut(s: string)
    ensures FindBoundary(Cut(s).1).None?
    decreases |s|
  {
  }

  // ----- Chunk invariance -----

  lemma {:induction false} FilteredAllAppend(filter: Filter, e: Emission, a: seq<string>, b: seq<string>)
    ensures FilteredAll(filter, e, a + b) == FilteredAll(filter, FilteredAll(filter, e, a), b)
    decreases |a|
  {
    if a == [] {
      assert a + b == b;
    } else {
      assert (a + b)[1..] == a[1..] + b;
      FilteredAllAppend(filter, Filtered(filter, e, a[0], "\n\n"), a[1..], b);
    }
  }

  lemma FilteredAllAfterFailure(filter: Filter, e: Emission, blocks: seq<string>)
    requires e.failed
    ensures FilteredAll(filter, e, blocks) == e
    decreases |blocks|
  {
    if blocks != [] {
      FilteredAllAfterFailure(filter, e, blocks[1..]);
    }
  }

  /** The drain loop filters exactly the complete blocks of its buffer. */
  lemma {:induction false} DrainedIsCut(filter: Filter, st: State)
    ensures Drained(filter, st).emission == FilteredAll(filter, st.emission, Cut(st.buffer).0)
    ensures !Drained(filter, st).emission.failed ==> Drained(filter, st).buffer == Cut(st.buffer).1
    decreases |st.buffer|
  {
    if st.emission.failed {
      FilteredAllAfterFailure(filter, st.emission, Cut(st.buffer).0);
    } else {
      match FindBoundary(st.buffer)
      case None =>
      case Some(b) =>
        var rest := st.buffer[b.index + b.length..];
        DrainedIsCut(filter, State(rest, Filtered(filter, st.emission, st.buffer[..b.index], "\n\n")));
        var blocks := Cut(st.buffer).0;
        assert blocks[0] == st.buffer[..b.index] && blocks[1..] == Cut(rest).0;
    }
  }

  /** The state holds what filtering all of `received` block by block gives; the buffer is what follows the blocks. */
  ghost predicate Reflects(filter: Filter, st: State, received: string) {
    st.emission == FilteredAll(filter, NOTHING, Cut(received).0)
    && (!st.emission.failed ==> st.buffer == Cut(received).1)
  }

  lemma {:induction false} AfterChunks(filter: Filter, st: State, received: string, chunks: seq<string>)
    requires Reflects(filter, st, received)
    ensures Reflects(filter, TransformedAll(filter, st, chunks), received + Concat(chunks))
    decreases |chunks|
  {
    if chunks == [] {
      assert received + Concat(chunks) == received;
    } else {
      var (next, more) := (Transformed(filter, st, chunks[0]), received + chunks[0]);
      AfterChunk(filter, st, received, chunks[0]);
      AfterChunks(filter, next, more, chunks[1..]);
      assert more + Concat(chunks[1..]) == received + Concat(chunks);
    }
  }

  lemma AfterChunk(filter: Filter, st: State, received: string, chunk: string)
    requires Reflects(filter, st, received)
    ensures Reflects(filter, Transformed(filter, st, chunk), received + chunk)
  {
    var (blocks, rest) := Cut(received);
    CutInPieces(received, chunk);
    assert Cut(received + chunk).0 == blocks + Cut(rest + chunk).0;
    FilteredAllAppend(filter, NOTHING, blocks, Cut(rest + chunk).0);
    if st.emission.failed {
      FilteredAllAfterFailure(filter, st.emission, Cut(rest + chunk).0);
    } else {
      DrainedIsCut(filter, st.(buffer := st.buffer + chunk));
    }
  }

  /** Whatever the cuts, a run emits what filtering the whole text block by block emits. */
  lemma RunIsWholeStream(filter: Filter, chunks: seq<string>)
    ensures Run(filter, chunks).emission == WholeStream(filter, Concat(chunks))
  {
    var text := Concat(chunks);
    assert "" + text == text;
    AfterChunks(filter, State("", NOTHING), "", chunks);
    var before := TransformedAll(filter, State("", NOTHING), chunks);
    CutRestIsUncut(text);
  }

  lemma ChunkInvariance(filter: Filter, a: seq<string>, b: seq<string>)
    requires Concat(a) == Concat(b)
    ensures Run(filter, a).emission == Run(filter, b).emission
  {
    RunIsWholeStream(filter, a);
    RunIsWholeStream(filter, b);
  }
}
