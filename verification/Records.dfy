/** The stored records (pkg/yeoul/types.go) and the pure predicates on them.

    A time is an integer number of nanoseconds. UNSET plays Go's zero time: it is
    an instant like any other for comparisons, and the fields that hold it count
    as not given. Clock readings are positive, so they are never UNSET. */
module Records {
  import opened Wrappers
  import opened Text

  const UNSET := 0

  /** The names that the engine or a merge gives a meaning to. */
  predicate Managed(name: string) {
    name == "superseded_by" || name == "supersedes" || name == "supersede_reason" || name == "duplicate_of" ||
    name == "history_inferred" || name == "_history" || name == "stable_key" || name == "merged_from" ||
    name == "merge_reason" || name == "merge_marked" || name == "merge_target" || name == "changed_at"
  }

  type PlainName = name: string | !Managed(name) witness "note"

  /** Metadata keys: the managed names, and every other name. */
  datatype MetaKey =
    | SupersededBy
    | Supersedes
    | SupersedeReason
    | DuplicateOf
    | HistoryInferred
    | History
    | StableKey
    | MergedFrom
    | MergeReason
    | MergeMarked
    | MergeTarget
    | ChangedAt
    | Field(name: PlainName)

  /** The key as text; KeyNamed reads it back. */
  function NameOf(key: MetaKey): (name: string)
    ensures KeyNamed(name) == key
  {
    match key
    case SupersededBy => "superseded_by"
    case Supersedes => "supersedes"
    case SupersedeReason => "supersede_reason"
    case DuplicateOf => "duplicate_of"
    case HistoryInferred => "history_inferred"
    case History => "_history"
    case StableKey => "stable_key"
    case MergedFrom => "merged_from"
    case MergeReason => "merge_reason"
    case MergeMarked => "merge_marked"
    case MergeTarget => "merge_target"
    case ChangedAt => "changed_at"
    case Field(name) => name
  }

  function KeyNamed(name: string): MetaKey {
    if name == "superseded_by" then SupersededBy
    else if name == "supersedes" then Supersedes
    else if name == "supersede_reason" then SupersedeReason
    else if name == "duplicate_of" then DuplicateOf
    else if name == "history_inferred" then HistoryInferred
    else if name == "_history" then History
    else if name == "stable_key" then StableKey
    else if name == "merged_from" then MergedFrom
    else if name == "merge_reason" then MergeReason
    else if name == "merge_marked" then MergeMarked
    else if name == "merge_target" then MergeTarget
    else if name == "changed_at" then ChangedAt
    else Field(name)
  }

  /** A finite float64, by its 64 bits: the numbers that JSON can hold. */
  type Float64 = bits: int | 0 <= bits < 0x1_0000_0000_0000_0000 && bits % 0x8000_0000_0000_0000 < 0x7FF0_0000_0000_0000

  datatype Value =
    | Null
    | Bool(b: bool)
    | Num(n: Float64)
    | Text(text: string)
    | Texts(texts: seq<string>)
    | Instant(at: int)
    | List(items: seq<Value>)
    | Obj(fields: Metadata)

  /** A nil map and an empty map are both the empty map here. */
  type Metadata = map<MetaKey, Value>

  const RESERVED_FACT_KEYS: set<MetaKey> :=
    {SupersededBy, Supersedes, SupersedeReason, DuplicateOf, HistoryInferred, History}

  const RESERVED_ENTITY_KEYS: set<MetaKey> := {HistoryInferred, History}

  datatype FactStatus = Active | Superseded | Retracted | OtherStatus(name: string)

  datatype Source = Source(
    id: string, spaceId: string, kind: string, uri: string, externalRef: string,
    metadata: Metadata, createdAt: int)

  datatype Episode = Episode(
    id: string, spaceId: string, kind: string, content: string, sourceId: string,
    groupId: string, observedAt: int, ingestedAt: int, metadata: Metadata)

  datatype Entity = Entity(
    id: string, spaceId: string, namespace: string, typ: string, canonicalName: string,
    aliases: seq<string>, metadata: Metadata, createdAt: int, updatedAt: int)

  datatype Fact = Fact(
    id: string, spaceId: string, predicate_: string, subjectId: string, objectId: string,
    valueText: string, confidence: real, status: FactStatus, validFrom: int, validTo: int,
    observedAt: int, createdAt: int, updatedAt: int, retractedAt: int,
    retractionReason: string, support: seq<string>, metadata: Metadata)

  datatype FactRevision = FactRevision(
    id: string, factId: string, spaceId: string, kind: string, txTime: int,
    predicate_: string, subjectId: string, objectId: string, valueText: string,
    confidence: real, status: FactStatus, validFrom: int, validTo: int, observedAt: int,
    createdAt: int, updatedAt: int, retractedAt: int, retractionReason: string,
    support: seq<string>, metadata: Metadata)

  datatype EntityRevision = EntityRevision(
    id: string, entityId: string, spaceId: string, kind: string, txTime: int,
    namespace: string, typ: string, canonicalName: string, aliases: seq<string>,
    metadata: Metadata, createdAt: int, updatedAt: int)

  datatype Watermark = Watermark(id: string, appliedAt: int)

  datatype SourceInput = SourceInput(
    id: string, spaceId: string, kind: string, uri: string, externalRef: string, metadata: Metadata)

  datatype EpisodeInput = EpisodeInput(
    id: string, spaceId: string, kind: string, content: string, sourceId: string,
    source: SourceInput, groupId: string, observedAt: int, metadata: Metadata)

  datatype EntityInput = EntityInput(
    id: string, spaceId: string, namespace: string, typ: string, canonicalName: string,
    stableKey: string, aliases: seq<string>, metadata: Metadata)

  datatype FactInput = FactInput(
    id: string, spaceId: string, predicate_: string, subjectId: string, objectId: string,
    valueText: string, confidence: real, status: Option<FactStatus>, validFrom: int,
    validTo: int, observedAt: int, support: seq<string>, cardinality: string, metadata: Metadata)

  datatype BatchInput = BatchInput(
    episodes: seq<EpisodeInput>, entities: seq<EntityInput>, facts: seq<FactInput>,
    hasRevisions: bool)

  // ----- times -----

  function ChooseTime(primary: int, fallback: int): int {
    if primary != UNSET then primary else fallback
  }

  predicate ValidFactInterval(from: int, to: int) {
    from == UNSET || to == UNSET || from < to
  }

  predicate FactDomainValidAt(from: int, to: int, at: int) {
    !(from != UNSET && from > at) && !(to != UNSET && at >= to)
  }

  predicate FactValidityOverlaps(aFrom: int, aTo: int, bFrom: int, bTo: int) {
    !(aTo != UNSET && bFrom != UNSET && aTo <= bFrom) &&
    !(bTo != UNSET && aFrom != UNSET && bTo <= aFrom)
  }

  predicate FactDomainOverlaps(fact: Fact, from: Option<int>, to: Option<int>) {
    !(from.Some? && fact.validTo != UNSET && fact.validTo <= from.value) &&
    !(to.Some? && fact.validFrom != UNSET && fact.validFrom >= to.value)
  }

  /** The slot guard's interval test is exact: two well-formed validity intervals
      overlap precisely when some domain instant lies in both. */
  lemma OverlapIsSharedInstant(aFrom: int, aTo: int, bFrom: int, bTo: int)
    requires ValidFactInterval(aFrom, aTo) && ValidFactInterval(bFrom, bTo)
    ensures FactValidityOverlaps(aFrom, aTo, bFrom, bTo) <==>
            exists at :: FactDomainValidAt(aFrom, aTo, at) && FactDomainValidAt(bFrom, bTo, at)
  {
    if FactValidityOverlaps(aFrom, aTo, bFrom, bTo) {
      var at :=
        if aFrom != UNSET && bFrom != UNSET then (if aFrom < bFrom then bFrom else aFrom)
        else if aFrom != UNSET then aFrom
        else if bFrom != UNSET then bFrom
        else if aTo != UNSET && bTo != UNSET then (if aTo < bTo then aTo else bTo) - 1
        else if aTo != UNSET then aTo - 1 else bTo - 1;
      assert FactDomainValidAt(aFrom, aTo, at) && FactDomainValidAt(bFrom, bTo, at);
    }
  }

  // ----- revisions -----

  function NewFactRevision(id: string, fact: Fact, kind: string, txTime: int): FactRevision {
    FactRevision(
      id, fact.id, fact.spaceId, kind, ChooseTime(txTime, fact.createdAt), fact.predicate_,
      fact.subjectId, fact.objectId, fact.valueText, fact.confidence, fact.status,
      fact.validFrom, fact.validTo, fact.observedAt, fact.createdAt, fact.updatedAt,
      fact.retractedAt, fact.retractionReason, fact.support, fact.metadata)
  }

  function ToFact(r: FactRevision): Fact {
    Fact(
      r.factId, r.spaceId, r.predicate_, r.subjectId, r.objectId, r.valueText, r.confidence,
      r.status, r.validFrom, r.validTo, r.observedAt, r.createdAt, r.updatedAt, r.retractedAt,
      r.retractionReason, r.support, r.metadata)
  }

  function WithoutHistory(metadata: Metadata): Metadata {
    metadata - {History}
  }

  function NewEntityRevision(id: string, entity: Entity, kind: string, txTime: int): EntityRevision {
    EntityRevision(
      id, entity.id, entity.spaceId, kind, ChooseTime(txTime, entity.createdAt),
      entity.namespace, entity.typ, entity.canonicalName, entity.aliases,
      WithoutHistory(entity.metadata), entity.createdAt, entity.updatedAt)
  }

  function ToEntity(r: EntityRevision): Entity {
    Entity(
      r.entityId, r.spaceId, r.namespace, r.typ, r.canonicalName, r.aliases, r.metadata,
      r.createdAt, r.updatedAt)
  }

  /** What a revision can preserve of an entity: everything but `_history`. */
  function Historyless(entity: Entity): Entity {
    entity.(metadata := WithoutHistory(entity.metadata))
  }

  // ----- small helpers of clone.go and history.go -----

  function StableKeyOf(metadata: Metadata): string {
    if StableKey in metadata && metadata[StableKey].Text? then metadata[StableKey].text else ""
  }

  function DedupeTrimmed(values: seq<string>): seq<string> {
    DedupeTrimmedFrom(values, {})
  }

  function DedupeTrimmedFrom(values: seq<string>, seen: set<string>): seq<string> {
    if values == [] then []
    else
      var v := Trim(values[0]);
      if v == "" || v in seen then DedupeTrimmedFrom(values[1..], seen)
      else [v] + DedupeTrimmedFrom(values[1..], seen + {v})
  }

  /** appendEntityHistory: the previous snapshot is appended to the `_history` list. */
  function AppendHistory(metadata: Metadata, entry: Value): Metadata {
    var earlier := if History in metadata && metadata[History].List? then metadata[History].items else [];
    WithoutHistory(metadata)[History := List(earlier + [entry])]
  }

  const SPACE_ID_KEY: MetaKey := Field("space_id")
  const NAMESPACE_KEY: MetaKey := Field("namespace")
  const TYPE_KEY: MetaKey := Field("type")
  const CANONICAL_NAME_KEY: MetaKey := Field("canonical_name")
  const ALIASES_KEY: MetaKey := Field("aliases")
  const METADATA_KEY: MetaKey := Field("metadata")
  const CREATED_AT_KEY: MetaKey := Field("created_at")
  const UPDATED_AT_KEY: MetaKey := Field("updated_at")

  function SnapshotEntry(entity: Entity, changedAt: int): Value {
    Obj(map[
      ChangedAt := Instant(changedAt),
      SPACE_ID_KEY := Text(entity.spaceId),
      NAMESPACE_KEY := Text(entity.namespace),
      TYPE_KEY := Text(entity.typ),
      CANONICAL_NAME_KEY := Text(entity.canonicalName),
      ALIASES_KEY := Texts(entity.aliases),
      METADATA_KEY := Obj(WithoutHistory(entity.metadata)),
      CREATED_AT_KEY := Instant(entity.createdAt),
      UPDATED_AT_KEY := Instant(entity.updatedAt)])
  }
}
