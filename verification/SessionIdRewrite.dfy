/** Removing foreign session ids from a JSON value (packages/dsh-luban-auth/src/sidecar.ts, rewriteSessionIdArrays). */
module SessionIdRewrite {

  /** A parsed JSON value. The entries of an object are its own enumerable properties in order. */
  datatype Json =
    | Null
    | Bool(truth: bool)
    | Number(number: real)
    | String(text: string)
    | Array(items: seq<Json>)
    | Object(entries: seq<Entry>)

  datatype Entry = Entry(key: string, value: Json)

  type Keep = string -> bool

  /** Simple case folding as far as the letters of "sessionids" can be reached by it. */
  function Fold(c: char): char {
    if 'A' <= c <= 'Z' then (c as int + 32) as char
    else if c == '\U{017F}' then 's'
    else c
  }

  function FoldAll(s: string): string {
    seq(|s|, i requires 0 <= i < |s| => Fold(s[i]))
  }

  /** The key ends in "sessionids", in any case. */
  predicate IsSessionIdsKey(key: string) {
    |key| >= |"sessionids"| && FoldAll(key[|key| - |"sessionids"|..]) == "sessionids"
  }

  /** Items that are not strings are kept whatever they are. */
  predicate Kept(item: Json, keep: Keep) {
    item.String? ==> keep(item.text)
  }

  function FilterItems(items: seq<Json>, keep: Keep): (r: seq<Json>)
    ensures |r| <= |items|
    ensures |r| == |items| <==> r == items
    ensures r == items <==> forall item :: item in items ==> Kept(item, keep)
    ensures forall item :: item in r <==> item in items && Kept(item, keep)
  {
    if items == [] then []
    else
      var rest := FilterItems(items[1..], keep);
      assert items == [items[0]] + items[1..];
      if Kept(items[0], keep) then [items[0]] + rest else rest
  }

  /** The entry is an array of session ids: it is filtered and not looked into. */
  predicate IsFiltered(e: Entry) {
    IsSessionIdsKey(e.key) && e.value.Array?
  }

  // ----- The plain deep filter: what the rewrite is meant to compute -----

  function DeepFilter(value: Json, keep: Keep): Json
    decreases value
  {
    match value
    case Array(items) => Array(seq(|items|, i requires 0 <= i < |items| => DeepFilter(items[i], keep)))
    case Object(entries) =>
      Object(seq(|entries|, i requires 0 <= i < |entries| =>
        Entry(entries[i].key,
              if IsFiltered(entries[i]) then Array(FilterItems(entries[i].value.items, keep))
              else DeepFilter(entries[i].value, keep))))
    case _ => value
  }

  /** No array of session ids that the rewrite visits holds a rejected id. */
  ghost predicate Clean(value: Json, keep: Keep)
    decreases value
  {
    match value
    case Array(items) => forall i :: 0 <= i < |items| ==> Clean(items[i], keep)
    case Object(entries) => forall i :: 0 <= i < |entries| ==> CleanEntry(entries[i], keep)
    case _ => true
  }

  ghost predicate CleanEntry(e: Entry, keep: Keep)
    decreases e
  {
    if IsFiltered(e) then forall item :: item in e.value.items ==> Kept(item, keep) else Clean(e.value, keep)
  }

  // ----- The rewrite as it is written -----

  /** Assigning to a property of a fresh record: `__proto__` sets its prototype and leaves no property behind. */
  function SetProperty(entries: seq<Entry>, key: string, value: Json): seq<Entry> {
    if key == "__proto__" then entries else entries + [Entry(key, value)]
  }

  function Rewrite(value: Json, keep: Keep): (Json, bool)
    decreases value
  {
    match value
    case Array(items) =>
      var changed := exists i :: 0 <= i < |items| && Rewrite(items[i], keep).1;
      (if changed then Array(seq(|items|, i requires 0 <= i < |items| => Rewrite(items[i], keep).0)) else value,
       changed)
    case Object(entries) =>
      var (result, changed) := RewriteEntries(entries, keep);
      (if changed then Object(result) else value, changed)
    case _ => (value, false)
  }

  function RewriteEntry(e: Entry, keep: Keep): (Json, bool)
    decreases e
  {
    if IsFiltered(e) then
      var filtered := FilterItems(e.value.items, keep);
      (Array(filtered), |filtered| != |e.value.items|)
    else Rewrite(e.value, keep)
  }

  function RewriteEntries(entries: seq<Entry>, keep: Keep): (seq<Entry>, bool)
    decreases entries
  {
    if entries == [] then ([], false)
    else
      var last := entries[|entries| - 1];
      var (result, changed) := RewriteEntries(entries[..|entries| - 1], keep);
      var (value, entryChanged) := RewriteEntry(last, keep);
      (SetProperty(result, last.key, value), changed || entryChanged)
  }

  /** The source's own form: loops over the items or the entries, with a result record and a changed flag. */
  method RewriteSessionIdArrays(value: Json, keep: Keep) returns (rewritten: Json, changed: bool)
    ensures (rewritten, changed) == Rewrite(value, keep)
    decreases value
  {
    rewritten, changed := value, false;
    match value {
      case Array(items) =>
        var results: seq<Json> := [];
        for i := 0 to |items|
          invariant |results| == i
          invariant forall j :: 0 <= j < i ==> results[j] == Rewrite(items[j], keep).0
          invariant changed <==> exists j :: 0 <= j < i && Rewrite(items[j], keep).1
        {
          var item, itemChanged := RewriteSessionIdArrays(items[i], keep);
          results := results + [item];
          changed := changed || itemChanged;
        }
        if changed {
          rewritten := Array(results);
          assert results == seq(|items|, i requires 0 <= i < |items| => Rewrite(items[i], keep).0);
        }
      case Object(entries) =>
        var result: seq<Entry> := [];
        for i := 0 to |entries|
          invariant (result, changed) == RewriteEntries(entries[..i], keep)
        {
          var e := entries[i];
          assert entries[..i + 1][..i] == entries[..i];
          var nested, nestedChanged;
          if IsFiltered(e) {
            var filtered := FilterItems(e.value.items, keep);
            nested, nestedChanged := Array(filtered), |filtered| != |e.value.items|;
          } else {
            nested, nestedChanged := RewriteSessionIdArrays(e.value, keep);
          }
          result := SetProperty(result, e.key, nested);
          changed := changed || nestedChanged;
        }
        assert entries[..|entries|] == entries;
        if changed {
          rewritten := Object(result);
        }
      case _ =>
    }
  }

  // ----- The changed flag -----

  lemma {:induction false} EntriesChanged(entries: seq<Entry>, keep: Keep)
    ensures RewriteEntries(entries, keep).1 <==> exists i :: 0 <= i < |entries| && RewriteEntry(entries[i], keep).1
  {
    if entries != [] {
      var n := |entries| - 1;
      EntriesChanged(entries[..n], keep);
      assert forall i :: 0 <= i < n ==> entries[..n][i] == entries[i];
    }
  }

  predicate HasProto(entries: seq<Entry>) {
    exists i :: 0 <= i < |entries| && entries[i].key == "__proto__"
  }

  /** Without `__proto__` every entry keeps its key and its place; with it, entries are missing. */
  lemma {:induction false} EntriesInPlace(entries: seq<Entry>, keep: Keep)
    ensures var result := RewriteEntries(entries, keep).0;
            |result| <= |entries|
            && (|result| == |entries| <==> !HasProto(entries))
            && (|result| == |entries| ==> forall i :: 0 <= i < |entries| ==>
                  result[i] == Entry(entries[i].key, RewriteEntry(entries[i], keep).0))
  {
    if entries != [] {
      var n := |entries| - 1;
      EntriesInPlace(entries[..n], keep);
      assert forall i :: 0 <= i < n ==> entries[..n][i] == entries[i];
    }
  }

  /** Every entry of the result is the rewrite of an entry. */
  lemma {:induction false} EntriesComeFrom(entries: seq<Entry>, keep: Keep, e: Entry) returns (i: nat)
    requires e in RewriteEntries(entries, keep).0
    ensures i < |entries| && e == Entry(entries[i].key, RewriteEntry(entries[i], keep).0) && e.key != "__proto__"
  {
    var n := |entries| - 1;
    var last := Entry(entries[n].key, RewriteEntry(entries[n], keep).0);
    if e == last && e.key != "__proto__" {
      i := n;
    } else {
      i := EntriesComeFrom(entries[..n], keep, e);
    }
  }

  /** An entry's value under the plain deep filter. */
  function FilteredValue(e: Entry, keep: Keep): Json {
    if IsFiltered(e) then Array(FilterItems(e.value.items, keep)) else DeepFilter(e.value, keep)
  }

  /** The flag is raised exactly when the deep filter has something to remove. */
  lemma {:induction false} ChangedIffFiltered(value: Json, keep: Keep)
    ensures Rewrite(value, keep).1 <==> DeepFilter(value, keep) != value
    decreases value
  {
    match value
    case Array(items) =>
      forall i | 0 <= i < |items| ensures Rewrite(items[i], keep).1 <==> DeepFilter(items[i], keep) != items[i] {
        ChangedIffFiltered(items[i], keep);
      }
      var filtered := DeepFilter(value, keep).items;
      assert filtered == items <==> forall i :: 0 <= i < |items| ==> filtered[i] == items[i];
    case Object(entries) =>
      EntriesChanged(entries, keep);
      forall i | 0 <= i < |entries|
        ensures RewriteEntry(entries[i], keep).1 <==> FilteredValue(entries[i], keep) != entries[i].value
      {
        if !IsFiltered(entries[i]) {
          ChangedIffFiltered(entries[i].value, keep);
        }
      }
      var filtered := DeepFilter(value, keep).entries;
      assert forall i :: 0 <= i < |entries| ==> filtered[i] == Entry(entries[i].key, FilteredValue(entries[i], keep));
      assert filtered == entries <==> forall i :: 0 <= i < |entries| ==> filtered[i] == entries[i];
    case _ =>
  }

  /** The flag is raised exactly when the returned value differs from the given one. */
  lemma {:induction false} ChangedIffDifferent(value: Json, keep: Keep)
    ensures Rewrite(value, keep).1 <==> Rewrite(value, keep).0 != value
    decreases value
  {
    match value
    case Array(items) =>
      forall i | 0 <= i < |items| ensures Rewrite(items[i], keep).1 <==> Rewrite(items[i], keep).0 != items[i] {
        ChangedIffDifferent(items[i], keep);
      }
      if Rewrite(value, keep).1 {
        var i :| 0 <= i < |items| && Rewrite(items[i], keep).1;
        assert Rewrite(value, keep).0.items[i] != items[i];
      }
    case Object(entries) =>
      EntriesChanged(entries, keep);
      EntriesInPlace(entries, keep);
      var (result, changed) := RewriteEntries(entries, keep);
      if changed && |result| == |entries| {
        var i :| 0 <= i < |entries| && RewriteEntry(entries[i], keep).1;
        if !IsFiltered(entries[i]) {
          ChangedIffDifferent(entries[i].value, keep);
        }
        assert result[i] != entries[i];
      }
    case _ =>
  }

  /** A value is clean exactly when the deep filter leaves it alone. */
  lemma {:induction false} CleanIffUntouched(value: Json, keep: Keep)
    ensures Clean(value, keep) <==> DeepFilter(value, keep) == value
    decreases value
  {
    match value
    case Array(items) =>
      forall i | 0 <= i < |items| ensures Clean(items[i], keep) <==> DeepFilter(items[i], keep) == items[i] {
        CleanIffUntouched(items[i], keep);
      }
      var filtered := DeepFilter(value, keep).items;
      assert filtered == items <==> forall i :: 0 <= i < |items| ==> filtered[i] == items[i];
    case Object(entries) =>
      var filtered := DeepFilter(value, keep).entries;
      forall i | 0 <= i < |entries| ensures CleanEntry(entries[i], keep) <==> filtered[i] == entries[i] {
        if !IsFiltered(entries[i]) {
          CleanIffUntouched(entries[i].value, keep);
        }
      }
      assert filtered == entries <==> forall i :: 0 <= i < |entries| ==> filtered[i] == entries[i];
    case _ =>
  }

  // ----- When the rewrite is the deep filter -----

  /** Every object with an own property named `__proto__` is clean: there is nothing to remove under it. */
  ghost predicate LosesNothing(value: Json, keep: Keep)
    decreases value
  {
    match value
    case Array(items) => forall i :: 0 <= i < |items| ==> LosesNothing(items[i], keep)
    case Object(entries) =>
      (HasProto(entries) ==> Clean(value, keep))
      && forall i :: 0 <= i < |entries| ==> IsFiltered(entries[i]) || LosesNothing(entries[i].value, keep)
    case _ => true
  }

  /** Exactly then the rewrite is the plain deep filter; otherwise it also drops a property. */
  lemma {:induction false} RewriteIsDeepFilter(value: Json, keep: Keep)
    ensures Rewrite(value, keep).0 == DeepFilter(value, keep) <==> LosesNothing(value, keep)
    decreases value
  {
    ChangedIffFiltered(value, keep);
    match value
    case Array(items) =>
      forall i | 0 <= i < |items|
        ensures Rewrite(items[i], keep).0 == DeepFilter(items[i], keep) <==> LosesNothing(items[i], keep)
        ensures Rewrite(items[i], keep).1 <==> Rewrite(items[i], keep).0 != items[i]
      {
        RewriteIsDeepFilter(items[i], keep);
        ChangedIffDifferent(items[i], keep);
      }
      var rewritten := Rewrite(value, keep).0.items;
      assert forall i :: 0 <= i < |items| ==> rewritten[i] == Rewrite(items[i], keep).0;
      var filtered := DeepFilter(value, keep).items;
      assert rewritten == filtered <==> forall i :: 0 <= i < |items| ==> rewritten[i] == filtered[i];
    case Object(entries) =>
      ObjectIsDeepFilter(value, keep);
    case _ =>
  }

  lemma {:induction false} ObjectIsDeepFilter(value: Json, keep: Keep)
    requires value.Object?
    ensures Rewrite(value, keep).0 == DeepFilter(value, keep) <==> LosesNothing(value, keep)
    decreases value, 0
  {
    var entries := value.entries;
    EntriesInPlace(entries, keep);
    ChangedIffFiltered(value, keep);
    CleanIffUntouched(value, keep);
    var filtered := DeepFilter(value, keep).entries;
    assert forall i :: 0 <= i < |entries| ==> filtered[i] == Entry(entries[i].key, FilteredValue(entries[i], keep));
    forall i | 0 <= i < |entries| && !IsFiltered(entries[i])
      ensures Rewrite(entries[i].value, keep).0 == DeepFilter(entries[i].value, keep)
        <==> LosesNothing(entries[i].value, keep)
      ensures Rewrite(entries[i].value, keep).1 <==> Rewrite(entries[i].value, keep).0 != entries[i].value
    {
      RewriteIsDeepFilter(entries[i].value, keep);
      ChangedIffDifferent(entries[i].value, keep);
    }
    var rewritten := Rewrite(value, keep).0.entries;
    if DeepFilter(value, keep) == value {
      EntriesChanged(entries, keep);
      assert forall i :: 0 <= i < |entries| ==> FilteredValue(entries[i], keep) == entries[i].value;
    } else if !HasProto(entries) {
      assert forall i :: 0 <= i < |entries| ==> rewritten[i] == Entry(entries[i].key, RewriteEntry(entries[i], keep).0);
      assert rewritten == filtered <==> forall i :: 0 <= i < |entries| ==> rewritten[i] == filtered[i];
    }
  }

  const LOSSY := Object([Entry("__proto__", Null), Entry("sessionids", Array([String("a")]))])

  /** A concrete loss: filtering one id out of this object also removes its own `__proto__` property. */
  lemma ProtoIsLost(keep: Keep)
    requires !keep("a")
    ensures var result := Rewrite(LOSSY, keep).0;
            result != DeepFilter(LOSSY, keep) && result.Object? && !HasProto(result.entries)
  {
    var entries := LOSSY.entries;
    assert HasProto(entries) by {
      assert entries[0].key == "__proto__";
    }
    SessionIdsKey();
    assert CleanEntry(entries[1], keep) == false by {
      assert String("a") in entries[1].value.items;
    }
    CleanIffUntouched(LOSSY, keep);
    ChangedIffFiltered(LOSSY, keep);
    RewriteIsDeepFilter(LOSSY, keep);
    var result := RewriteEntries(entries, keep).0;
    if HasProto(result) {
      var j :| 0 <= j < |result| && result[j].key == "__proto__";
      var i := EntriesComeFrom(entries, keep, result[j]);
    }
  }

  lemma SessionIdsKey()
    ensures IsSessionIdsKey("sessionids")
  {
    var key := "sessionids";
    assert key[0..] == key;
    assert FoldAll(key) == key;
  }

  // ----- Nothing rejected is left, and a second pass does nothing -----

  /** After the rewrite no visited array of session ids holds a rejected id, whatever the value was. */
  lemma {:induction false} RewriteIsClean(value: Json, keep: Keep)
    ensures Clean(Rewrite(value, keep).0, keep)
    decreases value
  {
    ChangedIffFiltered(value, keep);
    CleanIffUntouched(value, keep);
    match value
    case Array(items) =>
      forall i | 0 <= i < |items| ensures Clean(Rewrite(items[i], keep).0, keep) {
        RewriteIsClean(items[i], keep);
      }
    case Object(entries) =>
      var (result, changed) := RewriteEntries(entries, keep);
      forall j | 0 <= j < |result| ensures CleanEntry(result[j], keep) {
        var i := EntriesComeFrom(entries, keep, result[j]);
        if !IsFiltered(entries[i]) {
          RewriteIsClean(entries[i].value, keep);
          RewriteKeepsShape(entries[i].value, keep);
        }
      }
    case _ =>
  }

  lemma RewriteKeepsShape(value: Json, keep: Keep)
    ensures Rewrite(value, keep).0.Array? <==> value.Array?
  {
  }

  lemma RewriteIsIdempotent(value: Json, keep: Keep)
    ensures var once := Rewrite(value, keep).0; Rewrite(once, keep) == (once, false)
  {
    var once := Rewrite(value, keep).0;
    RewriteIsClean(value, keep);
    CleanIffUntouched(once, keep);
    ChangedIffFiltered(once, keep);
    ChangedIffDifferent(once, keep);
  }
}
