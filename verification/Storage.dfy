/** The keyed record store: deltas between states, tombstones, and loading
    (pkg/yeoul/store_lattice.go, pkg/yeoul/store_rhiza.go). A record's JSON text is
    modelled by the record itself. */
module Storage {
  import opened Wrappers
  import opened Text
  import opened Records
  import opened EngineSpec

  datatype Tag = RecordTag(kind: Kind) | MetaTag | UnknownTag(name: string)

  datatype Key = Key(tag: Tag, id: string)

  datatype Payload =
    | PSource(source: Source)
    | PEpisode(episode: Episode)
    | PEntity(entity: Entity)
    | PFact(fact: Fact)
    | PFactRevision(factRevision: FactRevision)
    | PEntityRevision(entityRevision: EntityRevision)
    | PWatermark(watermark: Watermark)
    | PMeta(version: int, sequence: nat)
    | PBlank

  /** A stored row; removals stay behind as tombstones. */
  datatype Row = Row(payload: Payload, deleted: bool)

  type Rows = map<Key, Row>

  const STATE_VERSION := 1
  const META := Key(MetaTag, "state")

  // ----- records by key -----

  function At(s: State, k: Key): Option<Payload> {
    if !k.tag.RecordTag? then None
    else match k.tag.kind
      case KSource => if k.id in s.sources then Some(PSource(s.sources[k.id])) else None
      case KEpisode => if k.id in s.episodes then Some(PEpisode(s.episodes[k.id])) else None
      case KEntity => if k.id in s.entities then Some(PEntity(s.entities[k.id])) else None
      case KFact => if k.id in s.facts then Some(PFact(s.facts[k.id])) else None
      case KFactRevision => if k.id in s.factRevisions then Some(PFactRevision(s.factRevisions[k.id])) else None
      case KEntityRevision => if k.id in s.entityRevisions then Some(PEntityRevision(s.entityRevisions[k.id])) else None
      case KWatermark => if k.id in s.watermarks then Some(PWatermark(s.watermarks[k.id])) else None
  }

  /** The payload decodes as this kind and names this ID. */
  predicate Fits(k: Key, p: Payload) {
    k.tag.RecordTag? &&
    match k.tag.kind
    case KSource => p.PSource? && p.source.id == k.id
    case KEpisode => p.PEpisode? && p.episode.id == k.id
    case KEntity => p.PEntity? && p.entity.id == k.id
    case KFact => p.PFact? && p.fact.id == k.id
    case KFactRevision => p.PFactRevision? && p.factRevision.id == k.id
    case KEntityRevision => p.PEntityRevision? && p.entityRevision.id == k.id
    case KWatermark => p.PWatermark? && p.watermark.id == k.id
  }

  /** decodeRhizaStateRecord: store the decoded record in its map. */
  function Insert(s: State, k: Key, p: Payload): State
    requires Fits(k, p)
  {
    match k.tag.kind
    case KSource => s.(sources := s.sources[k.id := p.source])
    case KEpisode => s.(episodes := s.episodes[k.id := p.episode])
    case KEntity => s.(entities := s.entities[k.id := p.entity])
    case KFact => s.(facts := s.facts[k.id := p.fact])
    case KFactRevision => s.(factRevisions := s.factRevisions[k.id := p.factRevision])
    case KEntityRevision => s.(entityRevisions := s.entityRevisions[k.id := p.entityRevision])
    case KWatermark => s.(watermarks := s.watermarks[k.id := p.watermark])
  }

  lemma InsertAt(s: State, k: Key, p: Payload, j: Key)
    requires Fits(k, p)
    ensures At(Insert(s, k, p), j) == if j == k then Some(p) else At(s, j)
    ensures Insert(s, k, p).sequence == s.sequence
  {
  }

  ghost predicate WellKeyed(s: State) {
    forall k :: At(s, k).Some? ==> Fits(k, At(s, k).value)
  }

  /** The IDs of one kind. */
  function IdsOf(s: State, kind: Kind): set<string> {
    match kind
    case KSource => s.sources.Keys
    case KEpisode => s.episodes.Keys
    case KEntity => s.entities.Keys
    case KFact => s.facts.Keys
    case KFactRevision => s.factRevisions.Keys
    case KEntityRevision => s.entityRevisions.Keys
    case KWatermark => s.watermarks.Keys
  }

  /** Every stored record, by key. */
  function KeysOf(s: State): (keys: set<Key>)
    ensures forall k :: k in keys <==> At(s, k).Some?
  {
    set kind, id | id in IdsOf(s, kind) :: Key(RecordTag(kind), id)
  }

  /** A state is determined by its records and its sequence. */
  lemma StateDetermined(s: State, t: State)
    requires s.sequence == t.sequence && forall k :: At(s, k) == At(t, k)
    ensures s == t
  {
    SameMaps(s, t);
  }

  lemma SameMaps(s: State, t: State)
    requires forall k :: At(s, k) == At(t, k)
    ensures s.sources == t.sources && s.episodes == t.episodes && s.entities == t.entities
    ensures s.facts == t.facts && s.factRevisions == t.factRevisions
    ensures s.entityRevisions == t.entityRevisions && s.watermarks == t.watermarks
  {
    forall id
      ensures id in s.sources <==> id in t.sources
      ensures id in s.sources ==> s.sources[id] == t.sources[id]
    {
      assert At(s, Key(RecordTag(KSource), id)) == At(t, Key(RecordTag(KSource), id));
    }
    forall id
      ensures id in s.episodes <==> id in t.episodes
      ensures id in s.episodes ==> s.episodes[id] == t.episodes[id]
    {
      assert At(s, Key(RecordTag(KEpisode), id)) == At(t, Key(RecordTag(KEpisode), id));
    }
    forall id
      ensures id in s.entities <==> id in t.entities
      ensures id in s.entities ==> s.entities[id] == t.entities[id]
    {
      assert At(s, Key(RecordTag(KEntity), id)) == At(t, Key(RecordTag(KEntity), id));
    }
    forall id
      ensures id in s.facts <==> id in t.facts
      ensures id in s.facts ==> s.facts[id] == t.facts[id]
    {
      assert At(s, Key(RecordTag(KFact), id)) == At(t, Key(RecordTag(KFact), id));
    }
    forall id
      ensures id in s.factRevisions <==> id in t.factRevisions
      ensures id in s.factRevisions ==> s.factRevisions[id] == t.factRevisions[id]
    {
      assert At(s, Key(RecordTag(KFactRevision), id)) == At(t, Key(RecordTag(KFactRevision), id));
    }
    forall id
      ensures id in s.entityRevisions <==> id in t.entityRevisions
      ensures id in s.entityRevisions ==> s.entityRevisions[id] == t.entityRevisions[id]
    {
      assert At(s, Key(RecordTag(KEntityRevision), id)) == At(t, Key(RecordTag(KEntityRevision), id));
    }
    forall id
      ensures id in s.watermarks <==> id in t.watermarks
      ensures id in s.watermarks ==> s.watermarks[id] == t.watermarks[id]
    {
      assert At(s, Key(RecordTag(KWatermark), id)) == At(t, Key(RecordTag(KWatermark), id));
    }
  }

  // ----- loading -----

  predicate Live(rows: Rows, k: Key) {
    k in rows && !rows[k].deleted
  }

  predicate MetaOk(row: Row) {
    !row.deleted && row.payload.PMeta? && row.payload.version == STATE_VERSION
  }

  /** Every live row is the state metadata of this version, or a decodable record. */
  ghost predicate Decodable(rows: Rows) {
    forall k :: Live(rows, k) ==> if k == META then MetaOk(rows[k]) else Fits(k, rows[k].payload)
  }

  /** Loading these rows succeeds and gives exactly this state. */
  ghost predicate Loads(rows: Rows, s: State) {
    Decodable(rows) &&
    (forall k :: At(s, k) == if k != META && Live(rows, k) then Some(rows[k].payload) else None) &&
    if rows == map[] then s.sequence == 0
    else META in rows && MetaOk(rows[META]) && s.sequence == rows[META].payload.sequence
  }

  /** Whatever loads is stored under its own keys. */
  lemma LoadedIsWellKeyed(rows: Rows, s: State)
    requires Loads(rows, s)
    ensures WellKeyed(s)
  {
    hide At, Fits;
    forall k | At(s, k).Some?
      ensures Fits(k, At(s, k).value)
    {
      assert k != META && Live(rows, k);
    }
  }

  lemma LoadsUnique(rows: Rows, s: State, t: State)
    requires Loads(rows, s) && Loads(rows, t)
    ensures s == t
  {
    hide At;
    StateDetermined(s, t);
  }

  // ----- deltas -----

  /** latticeRecordDelta as rows: what differs, with removals as tombstones. */
  function Delta(prev: State, next: State): Rows {
    map k | k in KeysOf(prev) + KeysOf(next) && At(prev, k) != At(next, k) ::
      if At(next, k).Some? then Row(At(next, k).value, false) else Row(PBlank, true)
  }

  function MetaRow(s: State): Row {
    Row(PMeta(STATE_VERSION, s.sequence), false)
  }

  /** The rows one save sends: the delta and the metadata record. */
  function SaveRows(prev: State, next: State): Rows {
    Delta(prev, next)[META := MetaRow(next)]
  }

  /** One delta save on top of a store that loads as `prev` makes it load as `next`. */
  lemma SaveLoads(rows: Rows, prev: State, next: State)
    requires Loads(rows, prev) && WellKeyed(next)
    ensures Loads(rows + SaveRows(prev, next), next)
  {
    MetaIsNoRecord(next);
    MetaIsNoRecord(prev);
    hide At, KeysOf, Fits;
    var rows' := rows + SaveRows(prev, next);
    forall k | k != META
      ensures At(next, k) == if Live(rows', k) then Some(rows'[k].payload) else None
      ensures Live(rows', k) ==> Fits(k, rows'[k].payload)
    {
      if k in Delta(prev, next) {
        assert rows'[k] == Delta(prev, next)[k];
      } else {
        assert At(prev, k) == At(next, k);
        assert Live(rows', k) <==> Live(rows, k);
      }
    }
    assert META in rows' && rows'[META] == MetaRow(next);
    assert Decodable(rows');
  }

  lemma MetaIsNoRecord(s: State)
    ensures At(s, META).None? && META !in KeysOf(s)
  {
  }

  ghost function SaveAll(rows: Rows, prev: State, states: seq<State>): Rows {
    if states == [] then rows
    else SaveAll(rows, prev, states[..|states| - 1]) + SaveRows(Last(prev, states[..|states| - 1]), states[|states| - 1])
  }

  function Last(prev: State, states: seq<State>): State {
    if states == [] then prev else states[|states| - 1]
  }

  /** Delta saves compose: after any sequence of states, records that were removed and
      came back included, the store loads as exactly the last state. */
  lemma {:induction false} DeltasCompose(states: seq<State>)
    requires forall i :: 0 <= i < |states| ==> WellKeyed(states[i])
    ensures Loads(SaveAll(map[], Empty(), states), Last(Empty(), states))
  {
    hide Loads, WellKeyed, SaveRows;
    if states == [] {
      EmptyLoads();
    } else {
      var front := states[..|states| - 1];
      DeltasCompose(front);
      SaveLoads(SaveAll(map[], Empty(), front), Last(Empty(), front), states[|states| - 1]);
    }
  }

  lemma EmptyLoads()
    ensures Loads(map[], Empty())
  {
  }

  // ----- composite keys -----

  function LabelText(kind: Kind): string {
    match kind
    case KSource => "Source"
    case KEpisode => "Episode"
    case KEntity => "Entity"
    case KFact => "Fact"
    case KFactRevision => "FactRevision"
    case KEntityRevision => "EntityRevision"
    case KWatermark => "YeoulMigration"
  }

  const NUL := '\0'

  /** label + "\x00" + id */
  function Compose(kind: Kind, id: string): string {
    LabelText(kind) + [NUL] + id
  }

  /** splitLatticeKey: cut at the first NUL. */
  method SplitLatticeKey(key: string) returns (tag: string, id: string)
    ensures NUL !in tag
    ensures if NUL in key then key == tag + [NUL] + id else tag == key && id == ""
  {
    for i := 0 to |key|
      invariant NUL !in key[..i]
    {
      if key[i] == NUL {
        assert key == key[..i] + [NUL] + key[i + 1..];
        return key[..i], key[i + 1..];
      }
    }
    assert key[..|key|] == key;
    return key, "";
  }

  /** There is one way to cut a composite key, even when the ID contains NULs. */
  lemma SplitRecovers(kind: Kind, id: string, tag: string, rest: string)
    requires NUL !in tag && Compose(kind, id) == tag + [NUL] + rest
    ensures tag == LabelText(kind) && rest == id
  {
    LabelHasNoNul(kind);
    SplitUnique(NUL, LabelText(kind), id, tag, rest);
  }

  lemma LabelsDistinct(a: Kind, b: Kind)
    requires LabelText(a) == LabelText(b)
    ensures a == b
  {
    assert |LabelText(a)| == |LabelText(b)| && LabelText(a)[0] == LabelText(b)[0] && LabelText(a)[1] == LabelText(b)[1];
  }

  function TagOf(text: string): Tag {
    if text == "Source" then RecordTag(KSource)
    else if text == "Episode" then RecordTag(KEpisode)
    else if text == "Entity" then RecordTag(KEntity)
    else if text == "Fact" then RecordTag(KFact)
    else if text == "FactRevision" then RecordTag(KFactRevision)
    else if text == "EntityRevision" then RecordTag(KEntityRevision)
    else if text == "YeoulMigration" then RecordTag(KWatermark)
    else UnknownTag(text)
  }

  lemma TagRecovered(kind: Kind)
    ensures TagOf(LabelText(kind)) == RecordTag(kind)
  {
    var text := LabelText(kind);
    assert text != "" && (|text| == 6 || |text| == 7 || |text| == 4 || |text| == 12 || |text| == 14);
  }

  predicate IsRecord(k: Key) {
    k.tag.RecordTag?
  }

  function Composite(k: Key): string
    requires IsRecord(k)
  {
    Compose(k.tag.kind, k.id)
  }

  /** `delta` holds the rows of `rows` under their composite string keys. */
  ghost predicate Renders(delta: map<string, Row>, rows: Rows) {
    (forall k :: k in rows ==> IsRecord(k) && Composite(k) in delta && delta[Composite(k)] == rows[k]) &&
    (forall c :: c in delta ==> exists k :: k in rows && IsRecord(k) && c == Composite(k))
  }

  lemma CompositeInjective(j: Key, k: Key)
    requires IsRecord(j) && IsRecord(k) && Composite(j) == Composite(k)
    ensures j == k
  {
    LabelHasNoNul(j.tag.kind);
    SplitRecovers(k.tag.kind, k.id, LabelText(j.tag.kind), j.id);
    LabelsDistinct(j.tag.kind, k.tag.kind);
  }

  lemma LabelHasNoNul(kind: Kind)
    ensures NUL !in LabelText(kind)
  {
    var text := LabelText(kind);
    assert forall i :: 0 <= i < |text| ==> text[i] != NUL;
  }

  lemma RendersMore(delta: map<string, Row>, rows: Rows, k: Key, row: Row)
    requires Renders(delta, rows) && IsRecord(k)
    ensures Renders(delta[Composite(k) := row], rows[k := row])
  {
    hide Composite;
    var delta', rows' := delta[Composite(k) := row], rows[k := row];
    forall j | j in rows'
      ensures Composite(j) in delta' && delta'[Composite(j)] == rows'[j]
    {
      if j != k && Composite(j) == Composite(k) {
        CompositeInjective(j, k);
      }
    }
    forall c | c in delta'
      ensures exists j :: j in rows' && IsRecord(j) && c == Composite(j)
    {
      if c != Composite(k) {
        var j :| j in rows && IsRecord(j) && c == Composite(j);
        assert j in rows';
      } else {
        assert k in rows';
      }
    }
  }

  lemma RecordsOnly(s: State, k: Key)
    requires k in KeysOf(s)
    ensures IsRecord(k)
  {
  }

  /** The first loop of deltaRecords: records that are new or changed. */
  method AddChanged(prev: State, next: State) returns (delta: map<string, Row>, ghost rows: Rows)
    ensures Renders(delta, rows)
    ensures forall k :: k in rows <==> k in KeysOf(next) && At(prev, k) != At(next, k)
    ensures forall k :: k in rows ==> rows[k] == Row(At(next, k).value, false)
  {
    hide At, KeysOf;
    delta := map[];
    rows := map[];
    var todo := KeysOf(next);
    while todo != {}
      invariant todo <= KeysOf(next) && Renders(delta, rows)
      invariant forall k :: k in rows <==> k in KeysOf(next) - todo && At(prev, k) != At(next, k)
      invariant forall k :: k in rows ==> rows[k] == Row(At(next, k).value, false)
      decreases |todo|
    {
      var k :| k in todo;
      todo := todo - {k};
      RecordsOnly(next, k);
      if At(prev, k) != At(next, k) {
        var row := Row(At(next, k).value, false);
        RendersMore(delta, rows, k, row);
        delta := delta[Composite(k) := row];
        rows := rows[k := row];
      }
    }
  }

  /** The second loop: records that disappeared. */
  method AddRemoved(prev: State, next: State, delta0: map<string, Row>, ghost rows0: Rows)
    returns (delta: map<string, Row>, ghost rows: Rows)
    requires Renders(delta0, rows0)
    requires forall k :: k in rows0 ==> k in KeysOf(next)
    ensures Renders(delta, rows)
    ensures forall k :: k in rows <==> k in rows0 || (k in KeysOf(prev) && At(next, k).None?)
    ensures forall k :: k in rows ==> rows[k] == if k in rows0 then rows0[k] else Row(PBlank, true)
  {
    hide At, KeysOf;
    delta, rows := delta0, rows0;
    var todo := KeysOf(prev);
    while todo != {}
      invariant todo <= KeysOf(prev) && Renders(delta, rows)
      invariant forall k :: k in rows <==> k in rows0 || (k in KeysOf(prev) - todo && At(next, k).None?)
      invariant forall k :: k in rows ==> rows[k] == if k in rows0 then rows0[k] else Row(PBlank, true)
      decreases |todo|
    {
      var k :| k in todo;
      todo := todo - {k};
      RecordsOnly(prev, k);
      if At(next, k).None? {
        RendersMore(delta, rows, k, Row(PBlank, true));
        delta := delta[Composite(k) := Row(PBlank, true)];
        rows := rows[k := Row(PBlank, true)];
      }
    }
  }

  /** latticeRecordDelta: fill the delta map in whatever order the maps are visited. */
  method BuildDelta(prev: State, next: State) returns (delta: map<string, Row>)
    ensures Renders(delta, Delta(prev, next))
  {
    hide At, KeysOf, Renders;
    ghost var rows: Rows;
    delta, rows := AddChanged(prev, next);
    delta, rows := AddRemoved(prev, next, delta, rows);
    assert rows == Delta(prev, next);
  }

  /** Turn composite keys back into rows. */
  method RowsOf(delta: map<string, Row>, ghost rows: Rows) returns (result: Rows)
    requires Renders(delta, rows)
    ensures result == rows
  {
    hide Composite, Compose, LabelText, TagOf;
    result := map[];
    var todo := delta.Keys;
    while todo != {}
      invariant todo <= delta.Keys
      invariant forall k :: k in result <==> k in rows && Composite(k) !in todo
      invariant forall k :: k in result ==> result[k] == rows[k]
      decreases |todo|
    {
      var c :| c in todo;
      ghost var k :| k in rows && IsRecord(k) && c == Composite(k);
      var text, id := SplitLatticeKey(c);
      SplitsTo(c, k, text, id);
      result := result[Key(TagOf(text), id) := delta[c]];
      forall j | j in rows && j != k
        ensures Composite(j) != c
      {
        if Composite(j) == c {
          CompositeInjective(j, k);
        }
      }
      todo := todo - {c};
    }
  }

  lemma SplitsTo(c: string, k: Key, text: string, id: string)
    requires IsRecord(k) && c == Composite(k) && NUL !in text
    requires if NUL in c then c == text + [NUL] + id else text == c && id == ""
    ensures Key(TagOf(text), id) == k
  {
    assert c[|LabelText(k.tag.kind)|] == NUL;
    SplitRecovers(k.tag.kind, k.id, text, id);
    TagRecovered(k.tag.kind);
  }
}
