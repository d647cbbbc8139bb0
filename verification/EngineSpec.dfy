/** The engine's mutations as functions on its state (pkg/yeoul/engine.go). The
    class in Engine.dfy performs the same work in place and is proved equal to
    these functions. A failed mutation is an error value: the partial changes it
    made are discarded by the rollback. */
module EngineSpec {
  import opened Wrappers
  import opened Text
  import opened Identity
  import opened Records

  datatype Kind =
    | KSource | KEpisode | KEntity | KFact | KFactRevision | KEntityRevision | KWatermark

  datatype State = State(
    sequence: nat,
    sources: map<string, Source>,
    episodes: map<string, Episode>,
    entities: map<string, Entity>,
    facts: map<string, Fact>,
    factRevisions: map<string, FactRevision>,
    entityRevisions: map<string, EntityRevision>,
    watermarks: map<string, Watermark>)

  /** The content-addressed parts of derived IDs. Nothing is assumed about them. */
  datatype Derivation = Derivation(
    slug: seq<string> -> string,
    fingerprint: seq<string> -> string,
    legacySource: seq<string> -> string)

  predicate Has(s: State, kind: Kind, id: string) {
    match kind
    case KSource => id in s.sources
    case KEpisode => id in s.episodes
    case KEntity => id in s.entities
    case KFact => id in s.facts
    case KFactRevision => id in s.factRevisions
    case KEntityRevision => id in s.entityRevisions
    case KWatermark => id in s.watermarks
  }

  function AllIds(s: State): (ids: set<string>)
    ensures forall id :: id in ids <==> exists kind :: Has(s, kind, id)
  {
    var ids := s.sources.Keys + s.episodes.Keys + s.entities.Keys + s.facts.Keys +
               s.factRevisions.Keys + s.entityRevisions.Keys + s.watermarks.Keys;
    assert forall id :: id in ids ==>
      Has(s, KSource, id) || Has(s, KEpisode, id) || Has(s, KEntity, id) || Has(s, KFact, id) ||
      Has(s, KFactRevision, id) || Has(s, KEntityRevision, id) || Has(s, KWatermark, id);
    ids
  }

  /** ensureGlobalIDAvailableLocked: no record of another kind holds the ID.
      Blank IDs are exempt. */
  ghost predicate IdAvailable(s: State, id: string, own: Kind) {
    Blank(id) || forall kind :: Has(s, kind, id) ==> kind == own
  }

  function NewId(s: State, prefix: string): (State, string) {
    var n := NextFree(AllIds(s), prefix, s.sequence);
    (s.(sequence := n), IdText(prefix, n))
  }

  function SpaceOf(spaceId: string): string {
    FirstNonEmpty(spaceId, "default")
  }

  function EntityID(d: Derivation, namespace: string, typ: string, identity: string): string {
    d.slug([namespace, typ, identity]) + "~" + d.fingerprint([namespace, typ, identity])
  }

  function SourceID(d: Derivation, spaceId: string, kind: string, ref: string): string {
    "src:" + d.slug([spaceId, kind, ref]) + "~" + d.fingerprint([spaceId, kind, ref])
  }

  // ----- writes shared by the mutations -----

  /** Store the fact and append its revision, as assertFactLocked and the lifecycle
      transitions do. */
  function PutFact(s: State, id: string, fact: Fact, kind: string): State {
    var stored := s.(facts := s.facts[id := fact]);
    var (numbered, rid) := NewId(stored, FACT_REVISION_PREFIX);
    numbered.(factRevisions :=
      numbered.factRevisions[rid := NewFactRevision(rid, fact, kind, fact.updatedAt)])
  }

  function PutEntity(s: State, id: string, entity: Entity, kind: string): State {
    var stored := s.(entities := s.entities[id := entity]);
    var (numbered, rid) := NewId(stored, ENTITY_REVISION_PREFIX);
    numbered.(entityRevisions :=
      numbered.entityRevisions[rid := NewEntityRevision(rid, entity, kind, entity.updatedAt)])
  }

  // ----- episodes -----

  datatype EpisodeDone = EpisodeDone(state: State, id: string, sourceId: string, created: bool)

  predicate SourceMatches(source: Source, spaceId: string, kind: string, ref: string) {
    source.spaceId == spaceId && source.kind == kind && source.externalRef == ref
  }

  function ResolveSource(s: State, d: Derivation, spaceId: string, sourceId: string,
                         input: SourceInput, now: int): Result<Source>
  {
    var explicit := if sourceId == "" then input.id else sourceId;
    var kind := if explicit == "" && Blank(input.kind) then "inline" else input.kind;
    var legacy := d.legacySource([spaceId, kind, input.externalRef]);
    var older := d.slug(["src", kind, input.externalRef]);
    var id :=
      if explicit != "" then explicit
      else if legacy in s.sources && SourceMatches(s.sources[legacy], spaceId, kind, input.externalRef) then legacy
      else if older in s.sources && SourceMatches(s.sources[older], spaceId, kind, input.externalRef) then older
      else SourceID(d, spaceId, kind, input.externalRef);
    var sourceSpace := SpaceOf(FirstNonEmpty(input.spaceId, spaceId));
    if sourceSpace != spaceId then Err(InputInvalid)
    else Ok(Source(id, sourceSpace, kind, input.uri, input.externalRef, input.metadata, now))
  }

  ghost function AdmitSource(s: State, spaceId: string, input: EpisodeInput, source: Source): Result<State> {
    var _ :- Check(IdAvailable(s, source.id, KSource), InputInvalid);
    if source.id in s.sources then
      var existing := s.sources[source.id];
      var _ :- Check(existing.spaceId == spaceId, LifecycleInvalid);
      var _ :- Check(
        input.sourceId != "" || input.source.id != "" ||
        SourceMatches(existing, source.spaceId, source.kind, source.externalRef), LifecycleInvalid);
      Ok(s)
    else
      Ok(s.(sources := s.sources[source.id := source]))
  }

  predicate SameEpisode(existing: Episode, spaceId: string, input: EpisodeInput, sourceId: string) {
    existing.spaceId == spaceId && existing.kind == input.kind && existing.content == input.content &&
    existing.sourceId == sourceId && existing.groupId == input.groupId
  }

  ghost function AdmitEpisode(s: State, spaceId: string, input: EpisodeInput, sourceId: string, now: int): Result<EpisodeDone> {
    var (numbered, id) := if input.id == "" then NewId(s, "ep") else (s, input.id);
    var _ :- Check(input.id == "" || IdAvailable(s, input.id, KEpisode), InputInvalid);
    if id in numbered.episodes then
      var _ :- Check(SameEpisode(numbered.episodes[id], spaceId, input, sourceId), LifecycleInvalid);
      Ok(EpisodeDone(numbered, id, sourceId, false))
    else
      var episode := Episode(id, spaceId, input.kind, input.content, sourceId, input.groupId,
                             input.observedAt, now, input.metadata);
      Ok(EpisodeDone(numbered.(episodes := numbered.episodes[id := episode]), id, sourceId, true))
  }

  ghost function IngestEpisode(s: State, d: Derivation, input: EpisodeInput, now: int): Result<EpisodeDone> {
    var _ :- Check(!Blank(input.kind) && !Blank(input.content), InputInvalid);
    var spaceId := SpaceOf(input.spaceId);
    var source :- ResolveSource(s, d, spaceId, input.sourceId, input.source, now);
    var sourced :- AdmitSource(s, spaceId, input, source);
    AdmitEpisode(sourced, spaceId, input, source.id, now)
  }

  // ----- entities -----

  datatype EntityDone = EntityDone(state: State, entity: Entity)

  predicate EntityIdentityMatches(entity: Entity, input: EntityInput) {
    var stored := StableKeyOf(entity.metadata);
    entity.namespace == input.namespace && entity.typ == input.typ &&
    if !Blank(input.stableKey) || !Blank(stored) then input.stableKey == stored
    else entity.canonicalName == input.canonicalName
  }

  predicate LegacyIdentityMatches(entity: Entity, input: EntityInput) {
    var stored := StableKeyOf(entity.metadata);
    entity.namespace == input.namespace && entity.typ == input.typ &&
    if !Blank(input.stableKey) then input.stableKey == stored
    else Blank(stored) && entity.canonicalName == input.canonicalName
  }

  /** The ID an entity write addresses: the explicit one, a matching legacy one, or
      the derived one. */
  function EntityTarget(s: State, d: Derivation, input: EntityInput): string {
    if input.id != "" then input.id
    else
      var identity := FirstNonEmpty(input.stableKey, input.canonicalName);
      var id := EntityID(d, input.namespace, input.typ, identity);
      var legacy := d.slug([input.namespace, input.typ, identity]);
      if id !in s.entities && legacy != id && legacy in s.entities &&
         LegacyIdentityMatches(s.entities[legacy], input)
      then legacy else id
  }

  /** The metadata an ordinary write may store: no engine-managed key, and the
      stable key only from the input field. */
  function AdmittedMetadata(input: EntityInput): Metadata {
    var plain := input.metadata - {StableKey} - RESERVED_ENTITY_KEYS;
    if Blank(input.stableKey) then plain else plain[StableKey := Records.Text(input.stableKey)]
  }

  function CreatedEntity(id: string, input: EntityInput, now: int): Entity {
    Entity(id, SpaceOf(input.spaceId), input.namespace, input.typ, input.canonicalName,
           DedupeTrimmed(input.aliases), AdmittedMetadata(input), now, now)
  }

  function UpdatedEntity(entity: Entity, input: EntityInput, now: int): Entity {
    Entity(
      entity.id,
      FirstNonEmpty(entity.spaceId, SpaceOf(input.spaceId)),
      FirstNonEmpty(entity.namespace, input.namespace),
      FirstNonEmpty(entity.typ, input.typ),
      input.canonicalName,
      DedupeTrimmed(entity.aliases + input.aliases),
      AppendHistory(entity.metadata, SnapshotEntry(entity, now)) + AdmittedMetadata(input),
      entity.createdAt, now)
  }

  predicate UpdateAllowed(entity: Entity, input: EntityInput) {
    (input.id == "" ==> EntityIdentityMatches(entity, input)) &&
    (entity.spaceId == "" || entity.spaceId == SpaceOf(input.spaceId)) &&
    (entity.namespace == "" || input.namespace == "" || entity.namespace == input.namespace) &&
    (entity.typ == "" || input.typ == "" || entity.typ == input.typ)
  }

  ghost function UpsertEntity(s: State, d: Derivation, input: EntityInput, now: int): Result<EntityDone> {
    var _ :- Check(!Blank(input.typ) && !Blank(input.canonicalName), InputInvalid);
    var _ :- Check(input.metadata.Keys !! RESERVED_ENTITY_KEYS, LifecycleInvalid);
    var id := EntityTarget(s, d, input);
    var _ :- Check(IdAvailable(s, id, KEntity), InputInvalid);
    if id !in s.entities then
      var entity := CreatedEntity(id, input, now);
      Ok(EntityDone(PutEntity(s, id, entity, "assert"), entity))
    else
      var _ :- Check(UpdateAllowed(s.entities[id], input), LifecycleInvalid);
      var entity := UpdatedEntity(s.entities[id], input, now);
      Ok(EntityDone(PutEntity(s, id, entity, "update"), entity))
  }

  // ----- facts -----

  datatype FactDone = FactDone(state: State, fact: Fact)

  predicate ValidFactInput(input: FactInput) {
    !Blank(input.predicate_) && !Blank(input.subjectId) && DedupeTrimmed(input.support) != []
  }

  predicate EndpointOk(s: State, spaceId: string, id: string) {
    id in s.entities && s.entities[id].spaceId == spaceId
  }

  predicate SupportOk(s: State, spaceId: string, id: string) {
    id != "" && Trim(id) == id && id in s.episodes && s.episodes[id].spaceId == spaceId
  }

  /** First occurrences, in order. */
  function Distinct(ids: seq<string>): seq<string> {
    if ids == [] then []
    else
      var front := Distinct(ids[..|ids| - 1]);
      if ids[|ids| - 1] in ids[..|ids| - 1] then front else front + [ids[|ids| - 1]]
  }

  function CardinalityOf(input: FactInput): string {
    var c := Trim(input.cardinality);
    if c == "" then "many" else c
  }

  /** The active facts of one slot whose validity overlaps the candidate's. */
  function SlotOccupants(s: State, spaceId: string, subjectId: string, predicate_: string,
                         from: int, to: int): set<string> {
    set id | id in s.facts && HoldsSlot(s.facts[id], spaceId, subjectId, predicate_) &&
             FactValidityOverlaps(s.facts[id].validFrom, s.facts[id].validTo, from, to)
  }

  predicate HoldsSlot(fact: Fact, spaceId: string, subjectId: string, predicate_: string) {
    fact.status == Active && fact.spaceId == spaceId && fact.subjectId == subjectId &&
    fact.predicate_ == predicate_
  }

  /** Every check of assertFactLocked that runs before an ID is chosen. */
  function AdmitFact(s: State, spaceId: string, input: FactInput): Result<()> {
    var _ :- Check(ValidFactInput(input), InputInvalid);
    var _ :- Check(EndpointOk(s, spaceId, input.subjectId), EntityNotFound);
    var _ :- Check(input.objectId == "" || EndpointOk(s, spaceId, input.objectId), EntityNotFound);
    var _ :- Check(forall id :: id in input.support ==> SupportOk(s, spaceId, id), InputInvalid);
    var status := input.status.GetOr(Active);
    var _ :- Check(!status.OtherStatus?, InputInvalid);
    var _ :- Check(status == Active, LifecycleInvalid);
    var _ :- Check(input.metadata.Keys !! RESERVED_FACT_KEYS, LifecycleInvalid);
    var _ :- Check(CardinalityOf(input) == "one" || CardinalityOf(input) == "many", InputInvalid);
    var _ :- Check(ValidFactInterval(input.validFrom, input.validTo), InputInvalid);
    Check(
      CardinalityOf(input) == "many" ||
      SlotOccupants(s, spaceId, input.subjectId, input.predicate_, input.validFrom, input.validTo) == {},
      FactConflict)
  }

  function AssertedFact(id: string, spaceId: string, input: FactInput, now: int): Fact {
    Fact(id, spaceId, input.predicate_, input.subjectId, input.objectId, input.valueText,
         input.confidence, Active, input.validFrom, input.validTo, input.observedAt, now, now,
         UNSET, "", Distinct(input.support), input.metadata)
  }

  ghost function AssertFact(s: State, spaceId: string, input: FactInput, now: int): Result<FactDone> {
    var _ :- AdmitFact(s, spaceId, input);
    var (numbered, id) := if input.id == "" then NewId(s, "fact") else (s, input.id);
    var _ :- Check(input.id == "" || IdAvailable(s, input.id, KFact), InputInvalid);
    var _ :- Check(id !in numbered.facts, LifecycleInvalid);
    var fact := AssertedFact(id, spaceId, input, now);
    Ok(FactDone(PutFact(numbered, id, fact, "assert"), fact))
  }

  /** strictlyAfterTxTime and the stamp rule of RetractFact: the reading of the
      clock, carried past the state it replaces. */
  function StrictlyAfter(now: int, after: int): int {
    if now > after then now else after + 1
  }

  datatype SupersedeDone = SupersedeDone(state: State, oldId: string, newId: string)

  predicate SupersedeAllowed(target: Fact, input: FactInput) {
    target.status != Retracted && target.status != Superseded &&
    (input.spaceId == "" || SpaceOf(input.spaceId) == target.spaceId) &&
    input.subjectId == target.subjectId && input.predicate_ == target.predicate_
  }

  function RetiredFact(target: Fact, input: FactInput, successor: Fact, reason: string): Fact {
    var closed :=
      if input.validFrom != UNSET && target.validFrom < input.validFrom &&
         (target.validTo == UNSET || input.validFrom < target.validTo)
      then input.validFrom else target.validTo;
    target.(
      status := Superseded, validTo := closed, updatedAt := successor.createdAt,
      metadata := target.metadata[SupersededBy := Records.Text(successor.id)][SupersedeReason := Records.Text(reason)])
  }

  function ReplacementFact(successor: Fact, targetId: string, reason: string): Fact {
    successor.(
      metadata := successor.metadata[Supersedes := Texts([targetId])][SupersedeReason := Records.Text(reason)])
  }

  /** A replacement never trips the single-value guard of its own slot. */
  function Additive(input: FactInput): FactInput {
    if Trim(input.cardinality) == "one" then input.(cardinality := "many") else input
  }

  ghost function SupersedeFact(s: State, factId: string, input: FactInput, reason: string, now: int): Result<SupersedeDone> {
    var _ :- Check(factId in s.facts, FactNotFound);
    var target := s.facts[factId];
    var _ :- Check(SupersedeAllowed(target, input), LifecycleInvalid);
    var done :- AssertFact(s, target.spaceId, Additive(input), StrictlyAfter(now, target.updatedAt));
    var retired := RetiredFact(target, input, done.fact, reason);
    var closed := PutFact(done.state, factId, retired, "supersede");
    var linked := ReplacementFact(done.fact, factId, reason);
    Ok(SupersedeDone(PutFact(closed, done.fact.id, linked, "supersede_replacement"), factId, done.fact.id))
  }

  function RetractedFact(fact: Fact, reason: string, now: int): Fact {
    var at := StrictlyAfter(now, fact.updatedAt);
    fact.(status := Retracted, retractedAt := at, retractionReason := reason, updatedAt := at)
  }

  function RetractFact(s: State, factId: string, reason: string, now: int): Result<State> {
    var _ :- Check(factId in s.facts, FactNotFound);
    if s.facts[factId].status == Retracted then Ok(s)
    else Ok(PutFact(s, factId, RetractedFact(s.facts[factId], reason, now), "retract"))
  }

  // ----- batches -----

  datatype BatchDone = BatchDone(
    state: State, episodeIds: seq<string>, entityIds: seq<string>, factIds: seq<string>,
    rewrites: map<string, string>)

  ghost function BatchEpisodes(b: BatchDone, d: Derivation, inputs: seq<EpisodeInput>, now: int): Result<BatchDone> {
    if inputs == [] then Ok(b)
    else
      var front :- BatchEpisodes(b, d, inputs[..|inputs| - 1], now);
      var done :- IngestEpisode(front.state, d, inputs[|inputs| - 1], now);
      Ok(front.(state := done.state, episodeIds := front.episodeIds + [done.id]))
  }

  /** The name by which facts of the same batch may refer to an entity input. */
  function ReferenceOf(d: Derivation, input: EntityInput): string {
    if input.id != "" then input.id
    else EntityID(d, input.namespace, input.typ, FirstNonEmpty(input.stableKey, input.canonicalName))
  }

  ghost function BatchEntities(b: BatchDone, d: Derivation, inputs: seq<EntityInput>, now: int): Result<BatchDone> {
    if inputs == [] then Ok(b)
    else
      var front :- BatchEntities(b, d, inputs[..|inputs| - 1], now);
      var input := inputs[|inputs| - 1];
      var done :- UpsertEntity(front.state, d, input, now);
      var reference := ReferenceOf(d, input);
      var _ :- Check(
        reference !in front.rewrites || front.rewrites[reference] == done.entity.id, LifecycleInvalid);
      Ok(front.(state := done.state, entityIds := front.entityIds + [done.entity.id],
                rewrites := front.rewrites[reference := done.entity.id]))
  }

  function Rewritten(rewrites: map<string, string>, input: FactInput): FactInput {
    input.(
      subjectId := if input.subjectId in rewrites then rewrites[input.subjectId] else input.subjectId,
      objectId := if input.objectId in rewrites then rewrites[input.objectId] else input.objectId)
  }

  ghost function BatchFacts(b: BatchDone, inputs: seq<FactInput>, now: int): Result<BatchDone> {
    if inputs == [] then Ok(b)
    else
      var front :- BatchFacts(b, inputs[..|inputs| - 1], now);
      var input := Rewritten(front.rewrites, inputs[|inputs| - 1]);
      var done :- AssertFact(front.state, SpaceOf(input.spaceId), input, now);
      Ok(front.(state := done.state, factIds := front.factIds + [done.fact.id]))
  }

  ghost function IngestBatch(s: State, d: Derivation, input: BatchInput, now: int): Result<BatchDone> {
    var b0 := BatchDone(s, [], [], [], map[]);
    var b1 :- BatchEpisodes(b0, d, input.episodes, now);
    var b2 :- BatchEntities(b1, d, input.entities, now);
    var b3 :- BatchFacts(b2, input.facts, now);
    var _ :- Check(!input.hasRevisions, LifecycleInvalid);
    Ok(b3)
  }

  // ----- runs -----

  datatype Op =
    | IngestOp(episode: EpisodeInput)
    | BatchOp(batch: BatchInput)
    | UpsertOp(entity: EntityInput)
    | AssertOp(fact: FactInput)
    | SupersedeOp(target: string, replacement: FactInput, reason: string)
    | RetractOp(target: string, reason: string)

  /** One mutation, stamped with the clock reading pinned for it. */
  ghost function Mutation(s: State, d: Derivation, op: Op, now: int): Result<State> {
    match op
    case IngestOp(input) =>
      var done :- IngestEpisode(s, d, input, now); Ok(done.state)
    case BatchOp(input) =>
      var done :- IngestBatch(s, d, input, now); Ok(done.state)
    case UpsertOp(input) =>
      var done :- UpsertEntity(s, d, input, now); Ok(done.state)
    case AssertOp(input) =>
      var done :- AssertFact(s, SpaceOf(input.spaceId), input, now); Ok(done.state)
    case SupersedeOp(target, input, reason) =>
      var done :- SupersedeFact(s, target, input, reason, now); Ok(done.state)
    case RetractOp(target, reason) =>
      RetractFact(s, target, reason, now)
  }

  /** A mutation either takes effect or leaves the state alone. */
  ghost function Step(s: State, d: Derivation, op: Op, now: int): State {
    var r := Mutation(s, d, op, now);
    if r.Ok? then r.value else s
  }

  // ----- the one-time seed -----

  const WATERMARK := "bitemporal_revision_seed_v1"

  function SeedName(id: string, suffix: string): (name: string)
    ensures |name| == 5 + |id| + |suffix| && name[5..5 + |id|] == id
  {
    "seed:" + id + suffix
  }

  /** The state a fact is assumed to have had when it was created. */
  function InitialFact(fact: Fact): Fact {
    fact.(status := Active, updatedAt := fact.createdAt, retractedAt := UNSET, retractionReason := "",
          metadata := (fact.metadata - RESERVED_FACT_KEYS)[HistoryInferred := Bool(true)])
  }

  /** A fact that changed since it was created gets an inferred first revision too. */
  predicate InitialInferred(fact: Fact) {
    fact.status != Active && fact.createdAt != UNSET && fact.updatedAt > fact.createdAt
  }

  function InitialRevision(fact: Fact, name: string): FactRevision {
    NewFactRevision(name, InitialFact(fact), "migration_seed_initial", fact.createdAt)
  }

  function CurrentRevision(fact: Fact, name: string, at: int): FactRevision {
    NewFactRevision(name, fact, "migration_seed", ChooseTime(fact.updatedAt, ChooseTime(fact.createdAt, at)))
  }

  function InitialRevisions(facts: map<string, Fact>): map<string, FactRevision> {
    map id | id in facts && InitialInferred(facts[id]) ::
      SeedName(id, ":initial") := InitialRevision(facts[id], SeedName(id, ":initial"))
  }

  function CurrentRevisions(facts: map<string, Fact>, at: int): map<string, FactRevision> {
    map id | id in facts :: SeedName(id, ":current") := CurrentRevision(facts[id], SeedName(id, ":current"), at)
  }

  function SeedEntityRevisions(entities: map<string, Entity>, at: int): map<string, EntityRevision> {
    map id | id in entities :: SeedName(id, "") := SeedEntityRevision(entities[id], SeedName(id, ""), at)
  }

  function SeedEntityRevision(entity: Entity, name: string, at: int): EntityRevision {
    var r := NewEntityRevision(name, entity, "migration_seed",
                               ChooseTime(entity.updatedAt, ChooseTime(entity.createdAt, at)));
    r.(metadata := r.metadata[HistoryInferred := Bool(true)])
  }

  /** seedBitemporalRevisionsLocked: give every record of an old database a revision,
      once. */
  function Seed(s: State, at: int): State {
    if WATERMARK in s.watermarks then s
    else s.(
      factRevisions := InitialRevisions(s.facts) + CurrentRevisions(s.facts, at) + s.factRevisions,
      entityRevisions := SeedEntityRevisions(s.entities, at) + s.entityRevisions,
      watermarks := s.watermarks[WATERMARK := Watermark(WATERMARK, at)])
  }

  function Empty(): State {
    State(0, map[], map[], map[], map[], map[], map[], map[])
  }

  /** An empty database right after the one-time seed; see Invariants.SeededInv. */
  function Seeded(at: int): State {
    State(0, map[], map[], map[], map[], map[], map[], map[WATERMARK := Watermark(WATERMARK, at)])
  }

  datatype Event = Event(op: Op, now: int)

  /** The state after a sequence of mutations, each with its own clock reading. */
  ghost function Run(s: State, d: Derivation, events: seq<Event>): State {
    if events == [] then s
    else Step(Run(s, d, events[..|events| - 1]), d, events[|events| - 1].op, events[|events| - 1].now)
  }

  ghost predicate ClockOk(events: seq<Event>) {
    forall i :: 0 <= i < |events| ==> events[i].now > 0
  }
}
