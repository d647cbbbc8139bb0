/** The `_history` that entities carried before the revision log (pkg/yeoul/history.go):
    reading it back, and what a historical read rebuilds from it. */
module EntityHistory {
  import opened Wrappers
  import opened Text
  import opened Records
  import opened EngineSpec

  datatype Snapshot = Snapshot(
    changedAt: int, spaceId: string, namespace: string, typ: string, canonicalName: string,
    aliases: seq<string>, metadata: Metadata, createdAt: int, updatedAt: int)

  // ----- reading one entry -----

  /** fmt.Sprint of what JSON can put into a text field; numbers, lists and objects, which
      no entry holds there, print as nothing here. */
  function Printed(value: Value): string {
    match value
    case Null => "<nil>"
    case Bool(b) => if b then "true" else "false"
    case Text(t) => t
    case _ => ""
  }

  function FieldIn(entry: Metadata, key: MetaKey): Value {
    if key in entry then entry[key] else Null
  }

  /** parseMaybeTime */
  function InstantOf(value: Value): int {
    if value.Instant? then value.at else UNSET
  }

  /** anyStringsFromMetadata: a generic list, as JSON decodes it. */
  function StringList(value: Value): seq<string> {
    if value.List? then seq(|value.items|, i requires 0 <= i < |value.items| => Printed(value.items[i])) else []
  }

  /** anyMapFromMetadata */
  function MapOf(value: Value): Metadata {
    if value.Obj? then value.fields else map[]
  }

  function ReadSnapshot(entry: Metadata): Snapshot {
    Snapshot(
      InstantOf(FieldIn(entry, ChangedAt)), Printed(FieldIn(entry, SPACE_ID_KEY)), Printed(FieldIn(entry, NAMESPACE_KEY)),
      Printed(FieldIn(entry, TYPE_KEY)), Printed(FieldIn(entry, CANONICAL_NAME_KEY)), StringList(FieldIn(entry, ALIASES_KEY)),
      MapOf(FieldIn(entry, METADATA_KEY)), InstantOf(FieldIn(entry, CREATED_AT_KEY)), InstantOf(FieldIn(entry, UPDATED_AT_KEY)))
  }

  /** The entries that are objects, in order. */
  function SnapshotsIn(items: seq<Value>): seq<Snapshot> {
    if items == [] then []
    else
      var last := items[|items| - 1];
      SnapshotsIn(items[..|items| - 1]) + if last.Obj? then [ReadSnapshot(last.fields)] else []
  }

  function Entries(metadata: Metadata): seq<Value> {
    if History in metadata && metadata[History].List? then metadata[History].items else []
  }

  /** entityHistorySnapshots */
  method EntityHistorySnapshots(metadata: Metadata) returns (snapshots: seq<Snapshot>)
    ensures snapshots == SnapshotsIn(Entries(metadata))
  {
    hide ReadSnapshot;
    var items := Entries(metadata);
    snapshots := [];
    for i := 0 to |items|
      invariant snapshots == SnapshotsIn(items[..i])
    {
      assert items[..i + 1][..i] == items[..i];
      if items[i].Obj? {
        snapshots := snapshots + [ReadSnapshot(items[i].fields)];
      }
    }
    assert items[..|items|] == items;
  }

  // ----- the version at an instant -----

  function ToVersion(id: string, s: Snapshot): Entity {
    Entity(id, s.spaceId, s.namespace, s.typ, s.canonicalName, s.aliases, s.metadata, s.createdAt, s.updatedAt)
  }

  /** The snapshot that was replaced first after the instant; of several, the first. */
  function FirstAfter(snapshots: seq<Snapshot>, at: int): Option<Snapshot> {
    if snapshots == [] then None
    else
      var earlier, last := FirstAfter(snapshots[..|snapshots| - 1], at), snapshots[|snapshots| - 1];
      if last.changedAt > at && (earlier.None? || last.changedAt < earlier.value.changedAt) then Some(last) else earlier
  }

  /** What a historical read rebuilds of an entity that was created by the instant and
      changed after it. */
  function RebuiltAt(entity: Entity, at: int): Option<Entity> {
    var snapshots := SnapshotsIn(Entries(entity.metadata));
    if snapshots == [] then None
    else
      var found := FirstAfter(snapshots, at);
      Some(if found.Some? then ToVersion(entity.id, found.value) else entity)
  }

  /** Insertion into a list that is sorted by the time of change, after its equals. */
  function Placed(sorted: seq<Snapshot>, s: Snapshot): seq<Snapshot> {
    if sorted == [] || sorted[|sorted| - 1].changedAt <= s.changedAt then sorted + [s]
    else Placed(sorted[..|sorted| - 1], s) + [sorted[|sorted| - 1]]
  }

  /** The first one after the instant in a list that is searched from its front. */
  function FirstFound(sorted: seq<Snapshot>, at: int): Option<Snapshot> {
    if sorted == [] then None else if sorted[0].changedAt > at then Some(sorted[0]) else FirstFound(sorted[1..], at)
  }

  ghost predicate InOrder(sorted: seq<Snapshot>) {
    forall i, j :: 0 <= i < j < |sorted| ==> sorted[i].changedAt <= sorted[j].changedAt
  }

  lemma {:induction false} PlacedElements(sorted: seq<Snapshot>, s: Snapshot)
    ensures multiset(Placed(sorted, s)) == multiset(sorted) + multiset{s}
    ensures forall x :: x in Placed(sorted, s) <==> x in sorted || x == s
  {
    if sorted != [] {
      var front, last := sorted[..|sorted| - 1], sorted[|sorted| - 1];
      assert sorted == front + [last];
      PlacedElements(front, s);
    }
  }

  lemma OrderGrows(front: seq<Snapshot>, last: Snapshot)
    ensures InOrder(front + [last]) <==> InOrder(front) && forall x :: x in front ==> x.changedAt <= last.changedAt
  {
    var whole := front + [last];
    if InOrder(whole) {
      assert forall i :: 0 <= i < |front| ==> whole[i] == front[i];
      assert whole[|front|] == last;
    }
  }

  lemma {:induction false} PlacedInOrder(sorted: seq<Snapshot>, s: Snapshot)
    requires InOrder(sorted)
    ensures InOrder(Placed(sorted, s))
  {
    hide InOrder;
    if sorted == [] {
      OrderGrows([], s);
      assert InOrder([]) by {
        NothingInOrder();
      }
      assert [] + [s] == Placed(sorted, s);
    } else {
      var front, last := sorted[..|sorted| - 1], sorted[|sorted| - 1];
      assert sorted == front + [last];
      OrderGrows(front, last);
      if last.changedAt <= s.changedAt {
        OrderGrows(sorted, s);
      } else {
        PlacedInOrder(front, s);
        PlacedElements(front, s);
        OrderGrows(Placed(front, s), last);
      }
    }
  }

  lemma NothingInOrder()
    ensures InOrder([])
  {
  }

  /** Searching a list for the first one after the instant, one element longer. */
  lemma {:induction false} FirstLonger(sorted: seq<Snapshot>, s: Snapshot, at: int)
    ensures FirstFound(sorted + [s], at) ==
            if FirstFound(sorted, at).Some? then FirstFound(sorted, at) else if s.changedAt > at then Some(s) else None
  {
    if sorted == [] {
      assert [s][1..] == [];
    } else {
      assert (sorted + [s])[1..] == sorted[1..] + [s];
      FirstLonger(sorted[1..], s, at);
    }
  }

  lemma {:induction false} FoundIsIn(sorted: seq<Snapshot>, at: int)
    ensures FirstFound(sorted, at).Some? ==> FirstFound(sorted, at).value in sorted && FirstFound(sorted, at).value.changedAt > at
  {
    if sorted != [] {
      FoundIsIn(sorted[1..], at);
    }
  }

  /** In a sorted list the new element is found exactly if it comes before all found so far. */
  lemma {:induction false} FirstPlaced(sorted: seq<Snapshot>, s: Snapshot, at: int)
    requires InOrder(sorted)
    ensures var found := FirstFound(sorted, at);
            FirstFound(Placed(sorted, s), at) ==
            if s.changedAt > at && (found.None? || s.changedAt < found.value.changedAt) then Some(s) else found
  {
    hide InOrder;
    FoundIsIn(sorted, at);
    if sorted == [] {
      FirstLonger(sorted, s, at);
    } else if sorted[|sorted| - 1].changedAt <= s.changedAt {
      var front, last := sorted[..|sorted| - 1], sorted[|sorted| - 1];
      assert sorted == front + [last];
      OrderGrows(front, last);
      FirstLonger(sorted, s, at);
    } else {
      var front, last := sorted[..|sorted| - 1], sorted[|sorted| - 1];
      assert sorted == front + [last];
      OrderGrows(front, last);
      FirstPlaced(front, s, at);
      FirstLonger(Placed(front, s), last, at);
      FirstLonger(front, last, at);
      FoundIsIn(front, at);
    }
  }

  method SortSnapshots(snapshots: seq<Snapshot>, ghost at: int) returns (sorted: seq<Snapshot>)
    ensures InOrder(sorted) && multiset(sorted) == multiset(snapshots)
    ensures FirstFound(sorted, at) == FirstAfter(snapshots, at)
  {
    hide InOrder, Placed;
    NothingInOrder();
    sorted := [];
    for i := 0 to |snapshots|
      invariant InOrder(sorted) && multiset(sorted) == multiset(snapshots[..i])
      invariant FirstFound(sorted, at) == FirstAfter(snapshots[..i], at)
    {
      assert snapshots[..i + 1] == snapshots[..i] + [snapshots[i]];
      PlacedInOrder(sorted, snapshots[i]);
      PlacedElements(sorted, snapshots[i]);
      FirstPlaced(sorted, snapshots[i], at);
      sorted := Placed(sorted, snapshots[i]);
    }
    assert snapshots[..|snapshots|] == snapshots;
  }

  /** The end of entityVersionAt: sort the snapshots by the time they were replaced, and
      take the first one replaced after the instant. */
  method Rebuild(entity: Entity, at: int) returns (r: Option<Entity>)
    ensures r == RebuiltAt(entity, at)
  {
    hide ToVersion, SnapshotsIn, Entries, FirstAfter, InOrder;
    var snapshots := EntityHistorySnapshots(entity.metadata);
    if snapshots == [] {
      return None;
    }
    var sorted := SortSnapshots(snapshots, at);
    for i := 0 to |sorted|
      invariant FirstFound(sorted, at) == FirstFound(sorted[i..], at)
    {
      if sorted[i].changedAt > at {
        return Some(ToVersion(entity.id, sorted[i]));
      }
    }
    return Some(entity);
  }

  // ----- what an old database remembers -----

  /** A value after JSON decodes it: every list is generic. */
  function Parsed(value: Value): (r: Value)
    ensures value.Obj? ==> r.Obj? && r.fields.Keys == value.fields.Keys
  {
    match value
    case Texts(texts) => List(seq(|texts|, i requires 0 <= i < |texts| => Records.Text(texts[i])))
    case List(items) => List(seq(|items|, i requires 0 <= i < |items| => Parsed(items[i])))
    case Obj(fields) => Obj(map k | k in fields :: Parsed(fields[k]))
    case _ => value
  }

  function ParsedFields(fields: Metadata): Metadata {
    Parsed(Obj(fields)).fields
  }

  lemma FieldParsed(fields: Metadata, k: MetaKey)
    requires k in fields
    ensures k in ParsedFields(fields) && ParsedFields(fields)[k] == Parsed(fields[k])
  {
  }

  function Reloaded(entity: Entity): Entity {
    entity.(metadata := ParsedFields(entity.metadata))
  }

  datatype Update = Update(input: EntityInput, now: int)

  /** An entity after a sequence of updates. */
  function Written(entity: Entity, writes: seq<Update>): Entity {
    if writes == [] then entity
    else UpdatedEntity(Written(entity, writes[..|writes| - 1]), writes[|writes| - 1].input, writes[|writes| - 1].now)
  }

  /** Each update comes later than the one before. */
  ghost predicate Ascending(writes: seq<Update>) {
    forall i, j :: 0 <= i < j < |writes| ==> writes[i].now < writes[j].now
  }

  /** The snapshot an update leaves of what it replaces. */
  function SnapshotOf(entity: Entity, changedAt: int): Snapshot {
    var e := Historyless(Reloaded(entity));
    Snapshot(changedAt, e.spaceId, e.namespace, e.typ, e.canonicalName, e.aliases, e.metadata, e.createdAt, e.updatedAt)
  }

  ghost predicate HasField(fields: Metadata, k: MetaKey, value: Value) {
    k in fields && fields[k] == value
  }

  lemma EntryFields(entity: Entity, changedAt: int)
    ensures var entry := SnapshotEntry(entity, changedAt);
            entry.Obj? && HasField(entry.fields, ChangedAt, Instant(changedAt)) &&
            HasField(entry.fields, SPACE_ID_KEY, Records.Text(entity.spaceId)) &&
            HasField(entry.fields, NAMESPACE_KEY, Records.Text(entity.namespace)) &&
            HasField(entry.fields, TYPE_KEY, Records.Text(entity.typ)) &&
            HasField(entry.fields, CANONICAL_NAME_KEY, Records.Text(entity.canonicalName)) &&
            HasField(entry.fields, ALIASES_KEY, Texts(entity.aliases)) &&
            HasField(entry.fields, METADATA_KEY, Obj(WithoutHistory(entity.metadata))) &&
            HasField(entry.fields, CREATED_AT_KEY, Instant(entity.createdAt)) &&
            HasField(entry.fields, UPDATED_AT_KEY, Instant(entity.updatedAt))
  {
  }

  lemma FieldReadsBack(fields: Metadata, k: MetaKey, value: Value)
    requires HasField(fields, k, value)
    ensures FieldIn(ParsedFields(fields), k) == Parsed(value)
  {
    FieldParsed(fields, k);
  }

  lemma EntryReadsBack(entity: Entity, changedAt: int)
    ensures var entry := Parsed(SnapshotEntry(entity, changedAt));
            entry.Obj? && ReadSnapshot(entry.fields) == SnapshotOf(entity, changedAt)
  {
    hide Parsed, SnapshotEntry, FieldIn, HasField, StringList, WithoutHistory;
    EntryFields(entity, changedAt);
    var fields := SnapshotEntry(entity, changedAt).fields;
    FieldReadsBack(fields, ChangedAt, Instant(changedAt));
    FieldReadsBack(fields, SPACE_ID_KEY, Records.Text(entity.spaceId));
    FieldReadsBack(fields, NAMESPACE_KEY, Records.Text(entity.namespace));
    FieldReadsBack(fields, TYPE_KEY, Records.Text(entity.typ));
    FieldReadsBack(fields, CANONICAL_NAME_KEY, Records.Text(entity.canonicalName));
    FieldReadsBack(fields, ALIASES_KEY, Texts(entity.aliases));
    FieldReadsBack(fields, METADATA_KEY, Obj(WithoutHistory(entity.metadata)));
    FieldReadsBack(fields, CREATED_AT_KEY, Instant(entity.createdAt));
    FieldReadsBack(fields, UPDATED_AT_KEY, Instant(entity.updatedAt));
    PlainParsed(entity.spaceId, changedAt);
    PlainParsed(entity.namespace, entity.createdAt);
    PlainParsed(entity.typ, entity.updatedAt);
    PlainParsed(entity.canonicalName, changedAt);
    TextsParsed(entity.aliases);
    WithoutHistoryParsed(entity.metadata);
  }

  lemma PlainParsed(text: string, at: int)
    ensures Parsed(Records.Text(text)) == Records.Text(text) && Parsed(Instant(at)) == Instant(at)
  {
  }

  lemma TextsParsed(texts: seq<string>)
    ensures StringList(Parsed(Texts(texts))) == texts
  {
  }

  lemma WithoutHistoryParsed(fields: Metadata)
    ensures Parsed(Obj(WithoutHistory(fields))) == Obj(WithoutHistory(ParsedFields(fields)))
  {
    assert ParsedFields(WithoutHistory(fields)) == WithoutHistory(ParsedFields(fields));
  }

  predicate HistoryIsList(fields: Metadata) {
    History in fields ==> fields[History].List?
  }

  /** The stored list grows by the entry of the update. */
  lemma EntriesGrow(entity: Entity, input: EntityInput, now: int)
    requires HistoryIsList(entity.metadata)
    ensures HistoryIsList(UpdatedEntity(entity, input, now).metadata)
    ensures Entries(Reloaded(UpdatedEntity(entity, input, now)).metadata) ==
            Entries(Reloaded(entity).metadata) + [Parsed(SnapshotEntry(entity, now))]
  {
    hide SnapshotEntry, DedupeTrimmed, Blank, Parsed;
    var updated := UpdatedEntity(entity, input, now).metadata;
    assert History in RESERVED_ENTITY_KEYS && History !in AdmittedMetadata(input);
    var entry := SnapshotEntry(entity, now);
    EntriesParsed(entity.metadata);
    EntriesParsed(updated);
    ItemsParsed(Entries(entity.metadata), entry);
  }

  lemma ItemsParsed(items: seq<Value>, item: Value)
    ensures ParsedItems(items + [item]) == ParsedItems(items) + [Parsed(item)]
  {
  }

  function ParsedItems(items: seq<Value>): seq<Value> {
    seq(|items|, i requires 0 <= i < |items| => Parsed(items[i]))
  }

  lemma EntriesParsed(fields: Metadata)
    requires HistoryIsList(fields)
    ensures Entries(ParsedFields(fields)) == ParsedItems(Entries(fields))
  {
    if History in fields {
      FieldParsed(fields, History);
    }
  }

  /** After any updates the entries are one snapshot for each of them, in order. */
  lemma {:induction false} Remembered(entity: Entity, writes: seq<Update>)
    requires History !in entity.metadata
    ensures HistoryIsList(Written(entity, writes).metadata)
    ensures var snapshots := SnapshotsIn(Entries(Reloaded(Written(entity, writes)).metadata));
            |snapshots| == |writes| &&
            forall i :: 0 <= i < |writes| ==> snapshots[i] == SnapshotOf(Written(entity, writes[..i]), writes[i].now)
  {
    hide UpdatedEntity, SnapshotEntry, SnapshotOf, ReadSnapshot, Parsed, Reloaded, HistoryIsList, Entries;
    if writes == [] {
      NothingRemembered(entity);
    } else {
      var n := |writes| - 1;
      var front := writes[..n];
      Remembered(entity, front);
      var before := Written(entity, front);
      EntriesGrow(before, writes[n].input, writes[n].now);
      EntryReadsBack(before, writes[n].now);
      var entries := Entries(Reloaded(before).metadata);
      var entry := Parsed(SnapshotEntry(before, writes[n].now));
      assert (entries + [entry])[..|entries|] == entries;
      assert forall i :: 0 <= i < n ==> front[..i] == writes[..i];
    }
  }

  lemma NothingRemembered(entity: Entity)
    requires History !in entity.metadata
    ensures Entries(Reloaded(entity).metadata) == [] && HistoryIsList(entity.metadata)
  {
  }

  /** How many updates had happened by the instant. */
  function DoneBy(writes: seq<Update>, at: int): (n: nat)
    ensures n <= |writes|
  {
    if writes == [] then 0
    else if writes[|writes| - 1].now <= at then |writes| else DoneBy(writes[..|writes| - 1], at)
  }

  /** The entity as it was at the instant. */
  function VersionBy(created: Entity, writes: seq<Update>, at: int): Entity {
    Reloaded(Written(created, writes[..DoneBy(writes, at)]))
  }

  lemma {:induction false} FirstOfIncreasing(snapshots: seq<Snapshot>, writes: seq<Update>, at: int)
    requires |snapshots| == |writes| && forall i :: 0 <= i < |writes| ==> snapshots[i].changedAt == writes[i].now
    requires Ascending(writes)
    ensures var n := DoneBy(writes, at);
            FirstAfter(snapshots, at) == if n < |writes| then Some(snapshots[n]) else None
    ensures forall i :: 0 <= i < |writes| ==> (writes[i].now <= at <==> i < DoneBy(writes, at))
  {
    if writes != [] {
      var n := |writes| - 1;
      FirstOfIncreasing(snapshots[..n], writes[..n], at);
      if writes[n].now <= at && n > 0 {
        assert forall i :: 0 <= i < n ==> writes[i].now <= at;
      }
    }
  }

  lemma {:induction false} WrittenKeeps(entity: Entity, writes: seq<Update>)
    ensures var e := Written(entity, writes);
            e.id == entity.id && e.createdAt == entity.createdAt &&
            e.updatedAt == if writes == [] then entity.updatedAt else writes[|writes| - 1].now
  {
    hide AppendHistory, SnapshotEntry, DedupeTrimmed, AdmittedMetadata;
    if writes != [] {
      WrittenKeeps(entity, writes[..|writes| - 1]);
    }
  }

  /** An entity that was updated any number of times, each time later than before, and was
      reloaded, is rebuilt as of every instant since its creation as it was then. */
  lemma RebuildsThePast(entity: Entity, writes: seq<Update>, at: int)
    requires History !in entity.metadata && Ascending(writes) && writes != [] && at < writes[|writes| - 1].now
    ensures RebuiltAt(Reloaded(Written(entity, writes)), at) ==
            Some(Historyless(VersionBy(entity, writes, at)))
  {
    hide UpdatedEntity, SnapshotsIn, FirstAfter, Entries;
    Remembered(entity, writes);
    WrittenKeeps(entity, writes);
    var snapshots := SnapshotsIn(Entries(Reloaded(Written(entity, writes)).metadata));
    FirstOfIncreasing(snapshots, writes, at);
    var n := DoneBy(writes, at);
    WrittenKeeps(entity, writes[..n]);
    assert writes[|writes| - 1].now > at;
  }
}
