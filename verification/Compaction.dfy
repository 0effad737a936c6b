/** Carrying a compaction out on the live surface of a session (packages/dsh-luban-context/src/dsh-context.ts,
    src/strategies.ts, src/engine.ts). */
module Compaction {
  import opened Wrappers
  import opened Text
  import opened Digest
  import opened Strategies

  /** Why a call on the context failed. */
  datatype Fault = Unavailable | Storage | NotContiguous | AppendRejected

  /** What the context remembers of one node of the surface. */
  datatype Snapshot = Snapshot(segment: Segment, eventSeq: nat, content: string)

  function Max(a: int, b: int): int {
    if a >= b then a else b
  }

  /** One segment per surface node, numbered by its position. */
  function SegmentSnapshots(nodes: seq<nat>, contentAt: nat -> string,
                            topicOf: string -> Option<string>): seq<Snapshot> {
    seq(|nodes|, i requires 0 <= i < |nodes| =>
      var content := contentAt(nodes[i]);
      Snapshot(Segment(i, i, Max(1, (|content| + 3) / 4), topicOf(content)), nodes[i], content))
  }

  /** The segments that go into a session reference. */
  function SegmentsOf(snapshots: seq<Snapshot>): seq<Segment> {
    seq(|snapshots|, i requires 0 <= i < |snapshots| => snapshots[i].segment)
  }

  // ----- The surface of a session -----

  ghost predicate Distinct(nodes: seq<nat>) {
    forall i, j :: 0 <= i < j < |nodes| ==> nodes[i] != nodes[j]
  }

  lemma FreshFront(nodes: seq<nat>, count: nat, next: nat)
    requires Distinct(nodes) && count <= |nodes| && forall n :: n in nodes ==> n < next
    ensures Distinct([next] + nodes[count..]) && forall n :: n in [next] + nodes[count..] ==> n < next + 1
  {
    var front := [next] + nodes[count..];
    forall i | 0 < i < |front| ensures front[i] == nodes[count + i - 1] && front[i] < next {
      assert nodes[count + i - 1] in nodes;
    }
  }

  /** A prefix that was taken off a surface, and the text of the message put in its place. */
  datatype Replacement = Replacement(prefix: seq<nat>, text: string)

  /** The surface as a value: its nodes, the next sequence number, and its replacements so far. */
  datatype Surface = Surface(nodes: seq<nat>, nextSeq: nat, replaced: seq<Replacement>)

  /** The surface after its first `k` nodes gave way to one new node with this text. */
  ghost function WithoutPrefix(s: Surface, k: nat, text: string): Surface
    requires k <= |s.nodes|
  {
    Surface([s.nextSeq] + s.nodes[k..], s.nextSeq + 1, s.replaced + [Replacement(s.nodes[..k], text)])
  }

  class Session {
    var nodes: seq<nat>
    var nextSeq: nat
    ghost var replaced: seq<Replacement>

    ghost function Current(): Surface
      reads this
    {
      Surface(nodes, nextSeq, replaced)
    }

    ghost predicate Valid()
      reads this
    {
      Distinct(nodes) && forall n :: n in nodes ==> n < nextSeq
    }

    /** Appends a message that takes the place of the first `count` nodes; a rejected append changes nothing. */
    method ReplacePrefix(count: nat, text: string) returns (ok: bool)
      requires Valid() && 0 < count <= |nodes|
      modifies this
      ensures Valid()
      ensures Current() == if ok then WithoutPrefix(old(Current()), count, text) else old(Current())
    {
      if * {
        return false;
      }
      replaced := replaced + [Replacement(nodes[..count], text)];
      FreshFront(nodes, count, nextSeq);
      nodes := [nextSeq] + nodes[count..];
      nextSeq := nextSeq + 1;
      return true;
    }
  }

  // ----- The archive -----

  datatype Document = Document(segment: Segment, content: string)

  /** One line of the index: which segment is in which file, and the digest of the file. */
  datatype Entry = Entry(segment: Segment, path: string, digest: string)

  /** An archive as a value: its files by name, and its index. */
  datatype Shelf = Shelf(files: map<string, Document>, index: seq<Entry>)

  /** File names hold the numbers of the segment, so different segments never share one. */
  ghost predicate NamesSegments(pathOf: (Segment, string) -> string) {
    forall s, t, c, d :: SegmentKey(s) != SegmentKey(t) ==> pathOf(s, c) != pathOf(t, d)
  }

  /** The entry takes the place of those with its name, or comes last. */
  function Indexed(index: seq<Entry>, entry: Entry): seq<Entry> {
    if exists e :: e in index && e.path == entry.path
    then seq(|index|, i requires 0 <= i < |index| => if index[i].path == entry.path then entry else index[i])
    else index + [entry]
  }

  /** The index has this entry under its name, and no other. */
  ghost predicate HasEntry(index: seq<Entry>, entry: Entry) {
    entry in index && forall e :: e in index && e.path == entry.path ==> e == entry
  }

  lemma IndexedHasEntry(index: seq<Entry>, entry: Entry)
    ensures HasEntry(Indexed(index, entry), entry)
    ensures forall e :: HasEntry(index, e) && e.path != entry.path ==> HasEntry(Indexed(index, entry), e)
  {
    var after := Indexed(index, entry);
    if exists e :: e in index && e.path == entry.path {
      var i :| 0 <= i < |index| && index[i].path == entry.path;
      assert after[i] == entry;
    } else {
      assert after[|index|] == entry;
    }
    forall e | HasEntry(index, e) && e.path != entry.path ensures HasEntry(after, e) {
      var i :| 0 <= i < |index| && index[i] == e;
      assert after[i] == e;
    }
  }

  function Filed(shelf: Shelf, entry: Entry, document: Document): Shelf {
    Shelf(shelf.files[entry.path := document], Indexed(shelf.index, entry))
  }

  /** What a write that fails can leave: nothing, the file without its entry, or both. */
  predicate PartlyFiled(before: Shelf, after: Shelf, entry: Entry, document: Document) {
    after == before || after == before.(files := before.files[entry.path := document])
    || after == Filed(before, entry, document)
  }

  function EntryFor(index: seq<Entry>, path: string): (r: Option<Entry>)
    ensures r.Some? ==> r.value in index && r.value.path == path
    ensures r.None? ==> forall e :: e in index ==> e.path != path
  {
    if index == [] then None else if index[0].path == path then Some(index[0]) else EntryFor(index[1..], path)
  }

  /** The document in a file of the index whose digest is still the recorded one. */
  function Replayed(shelf: Shelf, path: string, digestOf: (Segment, string) -> string): Option<Document> {
    match EntryFor(shelf.index, path)
    case None => None
    case Some(entry) =>
      if path !in shelf.files then None
      else
        var document := shelf.files[path];
        if digestOf(document.segment, document.content) == entry.digest then Some(document) else None
  }

  class Archive {
    const pathOf: (Segment, string) -> string
    const digestOf: (Segment, string) -> string
    var files: map<string, Document>
    var index: seq<Entry>

    function Current(): Shelf
      reads this
    {
      Shelf(files, index)
    }

    function EntryOf(segment: Segment, content: string): Entry {
      Entry(segment, pathOf(segment, content), digestOf(segment, content))
    }

    /** Writes one document, then its entry. Failing may leave either written. */
    method Write(segment: Segment, content: string) returns (path: Option<string>)
      modifies this
      ensures var (entry, document) := (EntryOf(segment, content), Document(segment, content));
              match path
              case Some(q) => q == entry.path && Current() == Filed(old(Current()), entry, document)
              case None => PartlyFiled(old(Current()), Current(), entry, document)
    {
      if * {
        return None;
      }
      var entry := EntryOf(segment, content);
      files := files[entry.path := Document(segment, content)];
      if * {
        return None;
      }
      index := Indexed(index, entry);
      if * {
        return None;
      }
      return Some(entry.path);
    }

    method ReplayPath(path: string) returns (r: Option<Document>)
      ensures r == Replayed(Current(), path, digestOf)
    {
      var entry := EntryFor(index, path);
      if entry.None? || path !in files {
        return None;
      }
      var document := files[path];
      return if digestOf(document.segment, document.content) == entry.value.digest then Some(document) else None;
    }
  }

  // ----- The context handed to a strategy -----

  function NodesTouched(nodes: seq<nat>, touched: set<nat>): (r: seq<nat>)
    ensures |r| <= |nodes|
    ensures forall n :: n in r <==> n in nodes && n in touched
  {
    if nodes == [] then []
    else (if nodes[0] in touched then [nodes[0]] else []) + NodesTouched(nodes[1..], touched)
  }

  function IndexOf(nodes: seq<nat>, n: nat): (i: nat)
    requires n in nodes
    ensures i < |nodes| && nodes[i] == n && n !in nodes[..i]
  {
    if nodes[0] == n then 0 else 1 + IndexOf(nodes[1..], n)
  }

  function Positions(nodes: seq<nat>, selected: seq<nat>): (r: seq<nat>)
    requires forall n :: n in selected ==> n in nodes
    ensures |r| == |selected| && forall i :: 0 <= i < |r| ==> r[i] == IndexOf(nodes, selected[i])
  {
    seq(|selected|, i requires 0 <= i < |selected| => IndexOf(nodes, selected[i]))
  }

  function Least(s: seq<nat>): (m: nat)
    requires s != []
    ensures m in s && forall x :: x in s ==> m <= x
  {
    assert s == [s[0]] + s[1..];
    if |s| == 1 then s[0] else var m := Least(s[1..]); if s[0] <= m then s[0] else m
  }

  function Greatest(s: seq<nat>): (m: nat)
    requires s != []
    ensures m in s && forall x :: x in s ==> x <= m
  {
    assert s == [s[0]] + s[1..];
    if |s| == 1 then s[0] else var m := Greatest(s[1..]); if s[0] >= m then s[0] else m
  }

  /** The guard of the replacement: the touched nodes stand at the front with no gap. */
  predicate IsContiguousPrefix(nodes: seq<nat>, selected: seq<nat>)
    requires selected != [] && forall n :: n in selected ==> n in nodes
  {
    var positions := Positions(nodes, selected);
    var (first, last) := (Least(positions), Greatest(positions));
    first == 0 && last - first + 1 == |selected|
  }

  function SelectedSnapshots(snapshots: seq<Snapshot>, segment: Segment): (r: seq<Snapshot>)
    ensures forall s :: s in r ==> s in snapshots
  {
    if snapshots == [] then []
    else
      var s := snapshots[0].segment;
      (if s.startSeq >= segment.startSeq && s.endSeq <= segment.endSeq then [snapshots[0]] else [])
      + SelectedSnapshots(snapshots[1..], segment)
  }

  function EventSeqs(snapshots: seq<Snapshot>): set<nat> {
    set s | s in snapshots :: s.eventSeq
  }

  /** The text under which snapshots are read. */
  function ReadText(selected: seq<Snapshot>): string {
    Join(seq(|selected|, i requires 0 <= i < |selected| => Heading(selected[i]) + selected[i].content), "\n\n")
  }

  function Heading(s: Snapshot): string {
    "## Surface message " + (if s.segment.startSeq < 0 then "-" else "")
    + Decimal(if s.segment.startSeq < 0 then -s.segment.startSeq else s.segment.startSeq)
    + " (event " + Decimal(s.eventSeq) + ")\n\n"
  }

  /** The text of the message that is put in place of the prefix. */
  function MessageText(summary: string, files: seq<string>): string {
    summary
    + if files == [] then "" else "\n\nExact archived source (retrieve when detail is needed):\n" + Listed(files)
  }

  // ----- The context -----

  class DshCompactionContext {
    const session: Session
    const archive: Archive
    const snapshots: seq<Snapshot>
    const isImportant: string -> bool
    var touched: set<nat>

    constructor (session: Session, archive: Archive, snapshots: seq<Snapshot>, isImportant: string -> bool)
      ensures this.session == session && this.archive == archive && this.snapshots == snapshots
      ensures this.isImportant == isImportant && touched == {}
    {
      this.session, this.archive, this.snapshots, this.isImportant := session, archive, snapshots, isImportant;
      touched := {};
    }

    /** Reads a segment and marks its nodes. A read may also be rejected, before or after it has marked them. */
    method Read(segment: Segment) returns (r: Result<string, Fault>)
      modifies this`touched
      ensures var selected := SelectedSnapshots(snapshots, segment);
              match r
              case Ok(text) =>
                selected != [] && text == ReadText(selected) && touched == old(touched) + EventSeqs(selected)
              case Err(e) => e == Unavailable && old(touched) <= touched <= old(touched) + EventSeqs(selected)
    {
      var selected := SelectedSnapshots(snapshots, segment);
      if selected == [] {
        return Err(Unavailable);
      }
      if * {
        return Err(Unavailable);
      }
      touched := touched + EventSeqs(selected);
      if * {
        return Err(Unavailable);
      }
      return Ok(ReadText(selected));
    }

    method ArchiveSegment(segment: Segment, content: string) returns (r: Result<string, Fault>)
      modifies this`touched, archive
      ensures var selected := SelectedSnapshots(snapshots, segment);
              if selected == []
              then r == Err(Unavailable) && touched == old(touched) && archive.Current() == old(archive.Current())
              else touched == old(touched) + EventSeqs(selected) && (r.Err? ==> r.error == Storage)
      ensures var (entry, document) := (archive.EntryOf(segment, content), Document(segment, content));
              match r
              case Ok(path) => path == entry.path && archive.Current() == Filed(old(archive.Current()), entry, document)
              case Err(_) => PartlyFiled(old(archive.Current()), archive.Current(), entry, document)
    {
      var selected := SelectedSnapshots(snapshots, segment);
      if selected == [] {
        return Err(Unavailable);
      }
      touched := touched + EventSeqs(selected);
      var path := archive.Write(segment, content);
      return if path.Some? then Ok(path.value) else Err(Storage);
    }

    /** What reading the segments gives. */
    function Contents(segments: seq<Segment>): seq<string> {
      seq(|segments|, i requires 0 <= i < |segments| => ReadText(SelectedSnapshots(snapshots, segments[i])))
    }

    lemma OneMoreSelected(segments: seq<Segment>, i: nat)
      requires i < |segments|
      ensures var read := SelectedSnapshots(snapshots, segments[i]);
              AllSelected(segments[..i + 1]) == AllSelected(segments[..i]) + EventSeqs(read)
              && Contents(segments[..i + 1]) == Contents(segments[..i]) + [ReadText(read)]
    {
      assert segments[..i + 1] == segments[..i] + [segments[i]];
    }

    /** Reads every segment and returns the digest of what was read. */
    method SummarizeSegments(segments: seq<Segment>) returns (r: Result<string, Fault>)
      modifies this`touched
      ensures old(touched) <= touched <= old(touched) + AllSelected(segments)
      ensures r.Ok? ==> r.value == SummaryOf(Contents(segments), isImportant)
      ensures r.Ok? ==> touched == old(touched) + AllSelected(segments)
      ensures r.Err? ==> r.error == Unavailable
    {
      var contents := ReadAll(segments);
      return if contents.Err? then Err(contents.error) else Ok(SummaryOf(contents.value, isImportant));
    }

    /** The loop that reads the segments. */
    method ReadAll(segments: seq<Segment>) returns (r: Result<seq<string>, Fault>)
      modifies this`touched
      ensures old(touched) <= touched <= old(touched) + AllSelected(segments)
      ensures r.Ok? ==> r.value == Contents(segments) && touched == old(touched) + AllSelected(segments)
      ensures r.Err? ==> r.error == Unavailable
    {
      var contents: seq<string> := [];
      for i := 0 to |segments|
        invariant touched == old(touched) + AllSelected(segments[..i]) && contents == Contents(segments[..i])
      {
        OneMoreSelected(segments, i);
        var content := Read(segments[i]);
        if content.Err? {
          return Err(content.error);
        }
        contents := contents + [content.value];
      }
      assert segments[..|segments|] == segments;
      return Ok(contents);
    }

    /** Every node that some segment of the list selects. */
    function AllSelected(segments: seq<Segment>): set<nat> {
      set s, e | s in segments && e in EventSeqs(SelectedSnapshots(snapshots, s)) :: e
    }

    /** Takes the touched prefix off the surface and puts one message in its place. */
    method Inject(summary: string, files: seq<string>) returns (r: Result<nat, Fault>)
      requires session.Valid()
      modifies session
      ensures session.Valid()
      ensures var (before, selected) := (old(session.Current()), NodesTouched(old(session.nodes), touched));
              if selected == [] then r == Ok(0) && session.Current() == before
              else if !IsContiguousPrefix(before.nodes, selected)
              then r == Err(NotContiguous) && session.Current() == before
              else if r.Err? then r == Err(AppendRejected) && session.Current() == before
              else
                r == Ok(|selected|)
                && session.Current() == WithoutPrefix(before, |selected|, MessageText(summary, files))
    {
      var selected := NodesTouched(session.nodes, touched);
      if selected == [] {
        return Ok(0);
      }
      if !IsContiguousPrefix(session.nodes, selected) {
        return Err(NotContiguous);
      }
      var ok := session.ReplacePrefix(|selected|, MessageText(summary, files));
      return if ok then Ok(|selected|) else Err(AppendRejected);
    }
  }

  // ----- The guard of the replacement, exactly -----

  lemma {:induction false} TouchedPrefix(nodes: seq<nat>, touched: set<nat>, k: nat)
    requires k <= |nodes| && Distinct(nodes)
    requires forall i :: 0 <= i < |nodes| ==> (nodes[i] in touched <==> i < k)
    ensures NodesTouched(nodes, touched) == nodes[..k]
  {
    if nodes != [] {
      TouchedPrefix(nodes[1..], touched, if k == 0 then 0 else k - 1);
      if k > 0 {
        assert nodes[..k] == [nodes[0]] + nodes[1..][..k - 1];
      }
    }
  }

  lemma IndexOfIs(nodes: seq<nat>, i: nat)
    requires Distinct(nodes) && i < |nodes|
    ensures IndexOf(nodes, nodes[i]) == i
  {
  }

  /** Touched nodes up to position `m` never outnumber the positions, and fill them only if all are touched. */
  lemma {:induction false} TouchedFill(nodes: seq<nat>, touched: set<nat>, m: nat)
    requires m <= |nodes| && forall i :: m <= i < |nodes| ==> nodes[i] !in touched
    ensures |NodesTouched(nodes, touched)| <= m
    ensures |NodesTouched(nodes, touched)| == m ==> forall i :: 0 <= i < m ==> nodes[i] in touched
  {
    if nodes != [] {
      TouchedFill(nodes[1..], touched, if m == 0 then 0 else m - 1);
      assert forall i :: 0 < i < m ==> nodes[i] == nodes[1..][i - 1];
    }
  }

  /** The contiguity check passes exactly when the touched nodes are a prefix of the surface. */
  lemma ContiguousIffPrefix(nodes: seq<nat>, touched: set<nat>)
    requires Distinct(nodes) && NodesTouched(nodes, touched) != []
    ensures var selected := NodesTouched(nodes, touched);
            IsContiguousPrefix(nodes, selected) <==> selected == nodes[..|selected|]
  {
    var selected := NodesTouched(nodes, touched);
    var positions := Positions(nodes, selected);
    var last := Greatest(positions);
    forall i | 0 <= i < |nodes| && nodes[i] in touched ensures i in positions {
      var j :| 0 <= j < |selected| && selected[j] == nodes[i];
      IndexOfIs(nodes, i);
      assert positions[j] == i;
    }
    if IsContiguousPrefix(nodes, selected) {
      TouchedFill(nodes, touched, last + 1);
      TouchedPrefix(nodes, touched, last + 1);
    }
    if selected == nodes[..|selected|] {
      forall j | 0 <= j < |selected| ensures positions[j] == j {
        IndexOfIs(nodes, j);
      }
      assert positions[0] == 0 && positions[|selected| - 1] == |selected| - 1;
    }
  }

  // ----- Snapshots that mirror the surface -----

  /** The snapshots were taken of this surface: position by position. */
  ghost predicate Mirrors(snapshots: seq<Snapshot>, nodes: seq<nat>, from: nat) {
    |snapshots| == |nodes|
    && forall i :: 0 <= i < |nodes| ==> snapshots[i].segment.startSeq == snapshots[i].segment.endSeq == from + i
                                        && snapshots[i].eventSeq == nodes[i]
  }

  lemma SnapshotsMirror(nodes: seq<nat>, contentAt: nat -> string, topicOf: string -> Option<string>)
    ensures Mirrors(SegmentSnapshots(nodes, contentAt, topicOf), nodes, 0)
  {
  }

  lemma {:induction false} NoneSelected(snapshots: seq<Snapshot>, nodes: seq<nat>, from: nat, segment: Segment)
    requires Mirrors(snapshots, nodes, from) && segment.endSeq < from
    ensures SelectedSnapshots(snapshots, segment) == []
  {
    if snapshots != [] {
      NoneSelected(snapshots[1..], nodes[1..], from + 1, segment);
    }
  }

  /** A segment of the surface selects its own node and no other. */
  lemma {:induction false} OneSelected(snapshots: seq<Snapshot>, nodes: seq<nat>, from: nat, i: nat)
    requires Mirrors(snapshots, nodes, from) && i < |nodes|
    ensures SelectedSnapshots(snapshots, snapshots[i].segment) == [snapshots[i]]
    decreases i
  {
    if i == 0 {
      NoneSelected(snapshots[1..], nodes[1..], from + 1, snapshots[0].segment);
    } else {
      OneSelected(snapshots[1..], nodes[1..], from + 1, i - 1);
      assert snapshots[1..][i - 1] == snapshots[i];
    }
  }

  function NodeSet(nodes: seq<nat>): set<nat> {
    set n | n in nodes
  }

  lemma {:induction false} TouchingAllSelectsPrefix(nodes: seq<nat>, k: nat)
    requires Distinct(nodes) && 0 < k <= |nodes|
    ensures NodesTouched(nodes, NodeSet(nodes[..k])) == nodes[..k] && nodes[..k] != []
    ensures IsContiguousPrefix(nodes, nodes[..k])
  {
    var touched := NodeSet(nodes[..k]);
    forall i | 0 <= i < |nodes| ensures nodes[i] in touched <==> i < k {
      if i < k {
        assert nodes[..k][i] == nodes[i];
      }
    }
    TouchedPrefix(nodes, touched, k);
    ContiguousIffPrefix(nodes, touched);
  }

  // ----- The strategies at work -----

  datatype CompactionResult = CompactionResult(beforeTokens: int, afterTokens: int, archiveFiles: seq<string>)

  function InjectedTokens(summary: string, files: seq<string>): nat {
    (|summary| + |Join(files, "\n")| + 3) / 4
  }

  /** Everything a compaction of the first `k` segments rests on. */
  ghost predicate Ready(context: DshCompactionContext, k: nat)
    reads context, context.session
  {
    context.session.Valid() && 0 < k <= |context.snapshots|
    && Mirrors(context.snapshots, context.session.nodes, 0)
    && context.touched <= NodeSet(context.session.nodes[..k])
    && NamesSegments(context.archive.pathOf)
  }

  /** Name and contents of the file for the message at position `i`. */
  function FileName(context: DshCompactionContext, i: nat): string
    requires i < |context.snapshots|
  {
    context.archive.pathOf(context.snapshots[i].segment, ReadText([context.snapshots[i]]))
  }

  function FileDocument(context: DshCompactionContext, i: nat): Document
    requires i < |context.snapshots|
  {
    Document(context.snapshots[i].segment, ReadText([context.snapshots[i]]))
  }

  function FileEntry(context: DshCompactionContext, i: nat): Entry
    requires i < |context.snapshots|
  {
    context.archive.EntryOf(context.snapshots[i].segment, ReadText([context.snapshots[i]]))
  }

  /** Each of the first `k` messages is on file and in the index, under the name returned for it. */
  ghost predicate OnFile(context: DshCompactionContext, shelf: Shelf, k: nat, files: seq<string>)
    requires k <= |context.snapshots|
  {
    |files| == k && forall i :: 0 <= i < k ==> files[i] == FileName(context, i) && IsOnFile(context, shelf, i)
  }

  ghost predicate IsOnFile(context: DshCompactionContext, shelf: Shelf, i: nat)
    requires i < |context.snapshots|
  {
    var entry := FileEntry(context, i);
    entry.path in shelf.files && shelf.files[entry.path] == FileDocument(context, i) && HasEntry(shelf.index, entry)
  }

  /** Filing the next message loses none of those before it. */
  lemma OneMoreOnFile(context: DshCompactionContext, shelf: Shelf, i: nat, files: seq<string>)
    requires i < |context.snapshots| && NamesSegments(context.archive.pathOf) && OnFile(context, shelf, i, files)
    requires forall j :: 0 <= j < i ==>
      SegmentKey(context.snapshots[j].segment) != SegmentKey(context.snapshots[i].segment)
    ensures OnFile(context, Filed(shelf, FileEntry(context, i), FileDocument(context, i)), i + 1,
                   files + [FileName(context, i)])
  {
    var (entry, document) := (FileEntry(context, i), FileDocument(context, i));
    var after := Filed(shelf, entry, document);
    IndexedHasEntry(shelf.index, entry);
    forall j | 0 <= j < i ensures IsOnFile(context, after, j) {
      assert IsOnFile(context, shelf, j) && FileEntry(context, j).path != entry.path;
    }
    assert IsOnFile(context, after, i);
  }

  /** What is on file can be read back, with the digest it was filed with. */
  lemma OnFileReplays(context: DshCompactionContext, shelf: Shelf, k: nat, files: seq<string>, i: nat)
    requires k <= |context.snapshots| && OnFile(context, shelf, k, files) && i < k
    ensures Replayed(shelf, files[i], context.archive.digestOf) == Some(FileDocument(context, i))
  {
    assert IsOnFile(context, shelf, i) && FileEntry(context, i).path == files[i];
  }

  method ArchiveOne(context: DshCompactionContext, segment: Segment, ghost k: nat, ghost i: nat)
    returns (r: Result<string, Fault>)
    requires Ready(context, k) && i < k && segment == context.snapshots[i].segment
    modifies context, context.archive
    ensures Ready(context, k) && old(context.touched) <= context.touched
    ensures r.Err? ==> r.error != NotContiguous
    ensures r.Ok? ==> context.session.nodes[i] in context.touched && r.value == FileName(context, i)
    ensures r.Ok? ==> context.archive.Current()
                      == Filed(old(context.archive.Current()), FileEntry(context, i), FileDocument(context, i))
  {
    OneSelected(context.snapshots, context.session.nodes, 0, i);
    assert context.session.nodes[i] == context.session.nodes[..k][i];
    assert EventSeqs([context.snapshots[i]]) == {context.session.nodes[i]};
    var content := context.Read(segment);
    if content.Err? {
      return content;
    }
    r := context.ArchiveSegment(segment, content.value);
  }

  /** `segments` are those of the first messages on the surface. */
  ghost predicate AreOldest(context: DshCompactionContext, segments: seq<Segment>) {
    0 < |segments| <= |context.snapshots| && segments == SegmentsOf(context.snapshots)[..|segments|]
  }

  /** The loop over the segments to archive; a failure leaves a part of them touched and perhaps written. */
  method ArchiveSegments(context: DshCompactionContext, segments: seq<Segment>) returns (r: Result<seq<string>, Fault>)
    requires AreOldest(context, segments) && Ready(context, |segments|)
    modifies context, context.archive
    ensures Ready(context, |segments|)
    ensures r.Err? ==> r.error != NotContiguous
    ensures r.Ok? ==> OnFile(context, context.archive.Current(), |segments|, r.value)
                      && context.touched == NodeSet(context.session.nodes[..|segments|])
  {
    var files: seq<string> := [];
    ghost var nodes := context.session.nodes;
    for i := 0 to |segments|
      invariant Ready(context, |segments|) && context.session.nodes == nodes
      invariant OnFile(context, context.archive.Current(), i, files)
      invariant NodeSet(nodes[..i]) <= context.touched
    {
      assert nodes[..i + 1] == nodes[..i] + [nodes[i]];
      ghost var before := context.archive.Current();
      var file := ArchiveOne(context, segments[i], |segments|, i);
      if file.Err? {
        return Err(file.error);
      }
      OneMoreOnFile(context, before, i, files);
      files := files + [file.value];
    }
    return Ok(files);
  }

  lemma {:induction false} OldestSelectPrefix(context: DshCompactionContext, segments: seq<Segment>)
    requires AreOldest(context, segments) && Ready(context, |segments|)
    ensures context.AllSelected(segments) == NodeSet(context.session.nodes[..|segments|])
  {
    var nodes, k := context.session.nodes, |segments|;
    forall i | 0 <= i < k ensures EventSeqs(SelectedSnapshots(context.snapshots, segments[i])) == {nodes[..k][i]} {
      OneSelected(context.snapshots, nodes, 0, i);
    }
    forall n | n in NodeSet(nodes[..k]) ensures n in context.AllSelected(segments) {
      var i :| 0 <= i < k && nodes[..k][i] == n;
      assert segments[i] in segments && n in EventSeqs(SelectedSnapshots(context.snapshots, segments[i]));
    }
  }

  /** The texts of the first `k` messages. */
  function PrefixContents(context: DshCompactionContext, k: nat): seq<string>
    requires k <= |context.snapshots|
  {
    seq(k, i requires 0 <= i < k => ReadText([context.snapshots[i]]))
  }

  /** The digest of the first `k` messages. */
  function PrefixSummary(context: DshCompactionContext, k: nat): string
    requires k <= |context.snapshots|
  {
    SummaryOf(PrefixContents(context, k), context.isImportant)
  }

  lemma OldestContents(context: DshCompactionContext, segments: seq<Segment>)
    requires AreOldest(context, segments) && Ready(context, |segments|)
    ensures context.Contents(segments) == PrefixContents(context, |segments|)
  {
    forall i | 0 <= i < |segments|
      ensures SelectedSnapshots(context.snapshots, segments[i]) == [context.snapshots[i]]
    {
      OneSelected(context.snapshots, context.session.nodes, 0, i);
    }
  }

  method SummarizeOldest(context: DshCompactionContext, segments: seq<Segment>) returns (r: Result<string, Fault>)
    requires AreOldest(context, segments) && Ready(context, |segments|)
    modifies context
    ensures Ready(context, |segments|)
    ensures r.Ok? ==> r.value == PrefixSummary(context, |segments|)
                      && context.touched == NodeSet(context.session.nodes[..|segments|])
    ensures r.Err? ==> r.error == Unavailable
  {
    OldestSelectPrefix(context, segments);
    OldestContents(context, segments);
    r := context.SummarizeSegments(segments);
  }

  /** The plan covers the oldest segments and keeps the others. */
  ghost predicate PlanCovers(context: DshCompactionContext, strategy: Strategy, plan: Plan, older: seq<Segment>) {
    AreOldest(context, older)
    && plan == PlanOf(strategy, Partition(SegmentsOf(context.snapshots)[|older|..], older), plan.budgetTokens)
  }

  /** What holds after executions that started on the surface `before`: it is untouched and everything is as ready
      as it was, or exactly the planned prefix is replaced and everything to be archived is on file. */
  ghost predicate Settled(context: DshCompactionContext, strategy: Strategy, k: nat, before: Surface,
                          r: Result<CompactionResult, Fault>)
    reads context, context.session, context.archive
  {
    match r
    case Err(e) => e != NotContiguous && Ready(context, k) && context.session.Current() == before
    case Ok(result) =>
      0 < k <= |before.nodes| == |context.snapshots|
      && context.session.Valid()
      && Replaced(context, strategy, k, before, context.session.Current(), context.archive.Current(), result)
  }

  /** What a strategy says about the first `k` messages. */
  function SummaryFor(context: DshCompactionContext, strategy: Strategy, k: nat, files: seq<string>): string
    requires k <= |context.snapshots|
  {
    if strategy.VirtualFile? then "Older context was archived. Retrieve exact details from:\n" + Listed(files)
    else PrefixSummary(context, k)
  }

  /** The surface has lost its first `k` nodes to the message of this strategy, and the result says so. */
  ghost predicate Replaced(context: DshCompactionContext, strategy: Strategy, k: nat, before: Surface, after: Surface,
                           shelf: Shelf, result: CompactionResult)
    requires k <= |before.nodes| == |context.snapshots|
  {
    var (segments, files) := (SegmentsOf(context.snapshots), result.archiveFiles);
    var summary := SummaryFor(context, strategy, k, files);
    after == WithoutPrefix(before, k, MessageText(summary, files))
    && result.beforeTokens == Total(segments)
    && result.afterTokens == Total(segments[k..]) + InjectedTokens(summary, files)
    && if strategy.Summarize? then files == [] else OnFile(context, shelf, k, files)
  }

  /** What a strategy does before it injects: archive, then summarize or list the files. */
  method Gather(strategy: Strategy, plan: Plan, context: DshCompactionContext, ghost older: seq<Segment>)
    returns (r: Result<(string, seq<string>), Fault>)
    requires PlanCovers(context, strategy, plan, older) && Ready(context, |older|)
    modifies context, context.archive
    ensures Ready(context, |older|)
    ensures r.Err? ==> r.error != NotContiguous
    ensures r.Ok? ==> context.touched == NodeSet(context.session.nodes[..|older|])
    ensures r.Ok? ==>
      var (summary, files) := r.value;
      summary == SummaryFor(context, strategy, |older|, files)
      && if strategy.Summarize? then files == [] else OnFile(context, context.archive.Current(), |older|, files)
  {
    var files: seq<string> := [];
    if !strategy.Summarize? {
      var archived := ArchiveSegments(context, plan.archive);
      if archived.Err? {
        return Err(archived.error);
      }
      files := archived.value;
    }
    if strategy.VirtualFile? {
      return Ok(("Older context was archived. Retrieve exact details from:\n" + Listed(files), files));
    }
    var digest := SummarizeOldest(context, plan.summarize);
    return if digest.Err? then Err(digest.error) else Ok((digest.value, files));
  }

  /** One execution of a strategy. Whatever fails, the surface is either untouched or has exactly the planned prefix
      replaced, and an execution that succeeds has replaced it; what it archives is on file by then. */
  method Execute(strategy: Strategy, plan: Plan, context: DshCompactionContext, ghost older: seq<Segment>)
    returns (r: Result<CompactionResult, Fault>)
    requires PlanCovers(context, strategy, plan, older) && Ready(context, |older|)
    requires ValidSegments(SegmentsOf(context.snapshots))
    modifies context, context.archive, context.session
    ensures Settled(context, strategy, |older|, old(context.session.Current()), r)
  {
    var gathered := Gather(strategy, plan, context, older);
    if gathered.Err? {
      return Err(gathered.error);
    }
    var (summary, files) := gathered.value;
    TouchingAllSelectsPrefix(context.session.nodes, |older|);
    var injected := context.Inject(summary, files);
    if injected.Err? {
      return Err(injected.error);
    }
    var before := BeforeTokens(plan);
    BeforeIsTotal(context, strategy, plan, older);
    return Ok(CompactionResult(before, Total(plan.keep) + InjectedTokens(summary, files), files));
  }

  lemma BeforeIsTotal(context: DshCompactionContext, strategy: Strategy, plan: Plan, older: seq<Segment>)
    requires PlanCovers(context, strategy, plan, older) && ValidSegments(SegmentsOf(context.snapshots))
    ensures Total(SetAll([], plan.keep + plan.summarize + plan.archive)) == Total(SegmentsOf(context.snapshots))
  {
    var segments := SegmentsOf(context.snapshots);
    assert older + segments[|older|..] == segments;
    BeforeTokensIsInputTotal(strategy, Partition(segments[|older|..], older), plan.budgetTokens);
  }

  // ----- Retry and fallback -----

  datatype Outcome =
    | NothingPlanned
    | Failed
    | Applied(result: CompactionResult, strategyId: string, plan: Plan, before: seq<nat>, after: seq<nat>)

  /** The retry loop: two executions of the chosen strategy. */
  method ExecuteTwice(strategy: Strategy, plan: Plan, context: DshCompactionContext, ghost older: seq<Segment>)
    returns (r: Result<CompactionResult, Fault>)
    requires PlanCovers(context, strategy, plan, older) && Ready(context, |older|)
    requires ValidSegments(SegmentsOf(context.snapshots))
    modifies context, context.archive, context.session
    ensures Settled(context, strategy, |older|, old(context.session.Current()), r)
  {
    r := Err(Unavailable);
    var attempt := 0;
    while attempt < 2 && r.Err?
      invariant 0 <= attempt <= 2
      invariant Settled(context, strategy, |older|, old(context.session.Current()), r)
    {
      r := Execute(strategy, plan, context, older);
      attempt := attempt + 1;
    }
  }

  /** The retry loop, then one execution of the archive-only strategy with its own plan. */
  method ExecuteWithFallback(strategy: Strategy, partition: Partition, budgetTokens: int, context: DshCompactionContext)
    returns (r: Result<CompactionResult, Fault>, used: Strategy, strategyId: string)
    requires AreOldest(context, partition.older) && Ready(context, |partition.older|)
    requires partition.keep == SegmentsOf(context.snapshots)[|partition.older|..]
    requires ValidSegments(SegmentsOf(context.snapshots))
    modifies context, context.archive, context.session
    ensures Settled(context, used, |partition.older|, old(context.session.Current()), r)
    ensures (used == strategy && strategyId == StrategyId(strategy))
         || (used == VirtualFile && strategyId == StrategyId(strategy) + ":archive-fallback")
  {
    used, strategyId := strategy, StrategyId(strategy);
    r := ExecuteTwice(strategy, PlanOf(strategy, partition, budgetTokens), context, partition.older);
    if r.Err? {
      used, strategyId := VirtualFile, StrategyId(strategy) + ":archive-fallback";
      r := Execute(VirtualFile, PlanOf(VirtualFile, partition, budgetTokens), context, partition.older);
    }
  }

  /** The strategy whose plan this is. */
  function StrategyOf(plan: Plan): Strategy {
    if plan.archive == [] then Summarize else if plan.summarize == [] then VirtualFile else SummarizeVirtualFile
  }

  ghost predicate AppliedCorrectly(context: DshCompactionContext, budgetTokens: int, before: Surface, outcome: Outcome)
    requires outcome.Applied?
    reads context.session, context.archive
  {
    var k := |context.snapshots| - |outcome.plan.keep|;
    0 < k <= |before.nodes| == |context.snapshots|
    && IsFirstKept(SegmentsOf(context.snapshots), budgetTokens, k)
    && Replaced(context, StrategyOf(outcome.plan), k, before, context.session.Current(), context.archive.Current(),
                outcome.result)
    && outcome.plan.strategyId == outcome.strategyId
    && outcome.before == before.nodes && outcome.after == context.session.nodes
  }

  lemma PartitionIsOldest(context: DshCompactionContext, partition: Partition)
    requires partition.older + partition.keep == SegmentsOf(context.snapshots) && partition.older != []
    ensures AreOldest(context, partition.older)
    ensures partition.keep == SegmentsOf(context.snapshots)[|partition.older|..]
    ensures |context.snapshots| - |partition.keep| == |partition.older|
  {
    var segments := SegmentsOf(context.snapshots);
    assert segments[..|partition.older|] == partition.older;
    assert segments[|partition.older|..] == partition.keep;
  }

  /** The plan that is audited: that of the strategy that succeeded, under its reported name. */
  function AuditedPlan(used: Strategy, partition: Partition, budgetTokens: int, strategyId: string): (plan: Plan)
    requires partition.older != []
    ensures plan.keep == partition.keep && plan.strategyId == strategyId && StrategyOf(plan) == used
  {
    PlanOf(used, partition, budgetTokens).(strategyId := strategyId)
  }

  lemma SettledIsApplied(context: DshCompactionContext, used: Strategy, k: nat, budgetTokens: int, before: Surface,
                         outcome: Outcome)
    requires outcome.Applied? && Settled(context, used, k, before, Ok(outcome.result))
    requires k == |context.snapshots| - |outcome.plan.keep| && StrategyOf(outcome.plan) == used
    requires IsFirstKept(SegmentsOf(context.snapshots), budgetTokens, k)
    requires outcome.plan.strategyId == outcome.strategyId
    requires outcome.before == before.nodes && outcome.after == context.session.nodes
    ensures AppliedCorrectly(context, budgetTokens, before, outcome)
  {
  }

  /** One compaction. Without a result the surface is as it was; with one it has lost exactly the planned prefix,
      once. */
  method Compact(strategy: Strategy, budgetTokens: int, context: DshCompactionContext) returns (outcome: Outcome)
    requires context.session.Valid() && Mirrors(context.snapshots, context.session.nodes, 0)
    requires context.touched == {} && NamesSegments(context.archive.pathOf)
    modifies context, context.archive, context.session
    ensures !outcome.Applied? ==> context.session.Current() == old(context.session.Current())
    ensures outcome.Applied? ==> AppliedCorrectly(context, budgetTokens, old(context.session.Current()), outcome)
  {
    var segments := SegmentsOf(context.snapshots);
    var planned := PartitionRecent(segments, budgetTokens);
    if planned.Err? {
      return Failed;
    }
    var partition := planned.value;
    if partition.older == [] {
      return NothingPlanned;
    }
    PartitionIsOldest(context, partition);
    ghost var surface := context.session.Current();
    var before := context.session.nodes;
    var result, used, strategyId := ExecuteWithFallback(strategy, partition, budgetTokens, context);
    if result.Err? {
      return Failed;
    }
    var audited := AuditedPlan(used, partition, budgetTokens, strategyId);
    outcome := Applied(result.value, strategyId, audited, before, context.session.nodes);
    SettledIsApplied(context, used, |partition.older|, budgetTokens, surface, outcome);
  }
}
