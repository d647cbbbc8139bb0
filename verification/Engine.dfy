/** The engine itself (pkg/yeoul/engine.go, pkg/yeoul/id.go): methods that update
    its maps in place, and the commit bracket that rolls back or poisons. */
module Engine {
  import opened Wrappers
  import opened Text
  import opened Sorting
  import opened Identity
  import opened Records
  import opened EngineSpec
  import opened Invariants
  import opened Preservation
  import opened Storage
  import opened AnyState
  import opened Backends
  import Lattice
  import Rhiza

  function OwnersOf(owners: map<string, set<Kind>>, id: string): set<Kind> {
    if id in owners then owners[id] else {}
  }

  /** Record that these IDs have an owner of this kind. */
  method ScanKind(kind: Kind, ids: set<string>, owners0: map<string, set<Kind>>) returns (owners: map<string, set<Kind>>)
    ensures forall id, k :: k in OwnersOf(owners, id) <==>
      k in OwnersOf(owners0, id) || (k == kind && id in ids && !Blank(id))
  {
    hide Blank, OwnersOf;
    owners := owners0;
    var todo := ids;
    while todo != {}
      invariant todo <= ids
      invariant forall id, k :: k in OwnersOf(owners, id) <==>
        k in OwnersOf(owners0, id) || (k == kind && id in ids - todo && !Blank(id))
      decreases |todo|
    {
      var id :| id in todo;
      todo := todo - {id};
      if !Blank(id) {
        var more := owners[id := OwnersOf(owners, id) + {kind}];
        OwnerAdded(owners, more, id, kind);
        owners := more;
      }
    }
  }

  lemma OwnerAdded(owners: map<string, set<Kind>>, more: map<string, set<Kind>>, id: string, kind: Kind)
    requires more == owners[id := OwnersOf(owners, id) + {kind}]
    ensures forall j, k :: k in OwnersOf(more, j) <==> k in OwnersOf(owners, j) || (j == id && k == kind)
  {
  }

  /** Every ID with the kinds that own it. */
  method CollectOwners(s: State) returns (owners: map<string, set<Kind>>)
    ensures forall id, k :: k in OwnersOf(owners, id) <==> Has(s, k, id) && !Blank(id)
  {
    hide Blank, OwnersOf;
    owners := map[];
    assert forall id :: OwnersOf(owners, id) == {} by {
      NoOwners();
    }
    owners := ScanKind(KSource, s.sources.Keys, owners);
    owners := ScanKind(KEpisode, s.episodes.Keys, owners);
    owners := ScanKind(KEntity, s.entities.Keys, owners);
    owners := ScanKind(KFact, s.facts.Keys, owners);
    owners := ScanKind(KFactRevision, s.factRevisions.Keys, owners);
    owners := ScanKind(KEntityRevision, s.entityRevisions.Keys, owners);
    owners := ScanKind(KWatermark, s.watermarks.Keys, owners);
  }

  lemma NoOwners()
    ensures forall id :: OwnersOf(map[], id) == {}
  {
  }

  /** validateGlobalRecordIDs: a state is refused exactly when some non-blank ID names
      records of two kinds. */
  method ValidateGlobalRecordIDs(s: State) returns (ok: bool)
    ensures ok <==> IdsUnique(s)
  {
    hide Blank, Has;
    var owners := CollectOwners(s);
    ok := true;
    var todo := owners.Keys;
    while todo != {}
      invariant todo <= owners.Keys
      invariant ok <==> forall id :: id in owners.Keys - todo ==> Single(owners[id])
      decreases |todo|
    {
      var id :| id in todo;
      todo := todo - {id};
      SizeOfSingle(owners[id]);
      if |owners[id]| > 1 {
        ok := false;
      }
    }
    assert forall id :: id in owners ==> OwnersOf(owners, id) == owners[id];
    assert IdsUnique(s) <==> forall id :: id in owners ==> Single(owners[id]) by {
      if forall id :: id in owners ==> Single(owners[id]) {
        forall id, j, k | Has(s, j, id) && Has(s, k, id) && !Blank(id)
          ensures j == k
        {
          assert j in OwnersOf(owners, id) && k in OwnersOf(owners, id);
        }
      }
    }
  }

  ghost predicate Single<T>(s: set<T>) {
    forall j, k :: j in s && k in s ==> j == k
  }

  lemma SizeOfSingle<T>(s: set<T>)
    ensures Single(s) <==> |s| <= 1
  {
    if |s| > 1 {
      TwoMembers(s);
    } else {
      OneMember(s);
    }
  }

  lemma TwoMembers<T>(s: set<T>)
    requires |s| > 1
    ensures exists j, k :: j in s && k in s && j != k
  {
    var j :| j in s;
    assert |s - {j}| > 0;
    var k :| k in s - {j};
    assert k in s;
  }

  lemma OneMember<T>(s: set<T>)
    requires |s| <= 1
    ensures forall j, k :: j in s && k in s ==> j == k
  {
    forall j, k | j in s && k in s
      ensures j == k
    {
      if j != k {
        SubsetSize({j, k}, s);
      }
    }
  }

  /** ctx.Err(): the caller may have given up at any check. */
  method CtxErr() returns (canceled: bool) {
    canceled := *;
  }

  /** A refused operation reports the error its specification gives, unless the
      caller gave up. */
  predicate Explained<T>(error: Error, spec: Result<T>) {
    spec == Err(error) || error == Error.Canceled
  }

  const KINDS := [KSource, KEpisode, KEntity, KFact, KFactRevision, KEntityRevision, KWatermark]

  lemma EveryKind()
    ensures forall kind: Kind :: kind in KINDS
  {
    forall kind: Kind
      ensures kind in KINDS
    {
      var i := match kind
        case KSource => 0 case KEpisode => 1 case KEntity => 2 case KFact => 3
        case KFactRevision => 4 case KEntityRevision => 5 case KWatermark => 6;
      assert KINDS[i] == kind;
    }
  }

  class Engine {
    const store: Backend

    var sequence: nat
    var sources: map<string, Source>
    var episodes: map<string, Episode>
    var entities: map<string, Entity>
    var facts: map<string, Fact>
    var factRevisions: map<string, FactRevision>
    var entityRevisions: map<string, EntityRevision>
    var watermarks: map<string, Watermark>
    var txTime: int
    var poisoned: bool

    /** When the in-memory seed ran; the seed is written by the first save. */
    ghost var seededAt: int

    constructor (store: Backend, state: EngineSpec.State, now: int)
      ensures this.store == store && State() == Seed(state, now) && !poisoned && txTime == UNSET && seededAt == now
    {
      this.store := store;
      var seeded := Seed(state, now);
      sequence := seeded.sequence;
      sources, episodes, entities, facts := seeded.sources, seeded.episodes, seeded.entities, seeded.facts;
      factRevisions, entityRevisions, watermarks := seeded.factRevisions, seeded.entityRevisions, seeded.watermarks;
      txTime, poisoned := UNSET, false;
      seededAt := now;
    }

    function State(): EngineSpec.State
      reads this
    {
      EngineSpec.State.State(sequence, sources, episodes, entities, facts, factRevisions, entityRevisions, watermarks)
    }

    // ----- generated IDs -----

    method NewIDLocked(prefix: string) returns (id: string)
      modifies `sequence
      ensures (State(), id) == NewId(old(State()), prefix)
    {
      hide IdText;
      ghost var start, taken := sequence, AllIds(State());
      ghost var n := NextFree(taken, prefix, start);
      while true
        invariant start <= sequence < n
        invariant AllIds(State()) == taken
        invariant forall m :: start < m <= sequence ==> IdText(prefix, m) in taken
        decreases n - sequence
      {
        sequence := sequence + 1;
        id := IdText(prefix, sequence);
        var exists_ := IdExists(id);
        if !exists_ {
          assert sequence == n;
          return;
        }
      }
    }

    method IdExists(id: string) returns (found: bool)
      ensures found <==> id in AllIds(State())
    {
      found := id in sources || id in episodes || id in entities || id in facts ||
               id in factRevisions || id in entityRevisions || id in watermarks;
      KindsOf(State(), id);
    }

    method EnsureGlobalIDAvailable(id: string, own: Kind) returns (ok: bool)
      ensures ok <==> IdAvailable(State(), id, own)
    {
      hide Blank;
      if Blank(id) {
        return true;
      }
      var conflicts: seq<Kind> := [];
      for i := 0 to |KINDS|
        invariant conflicts == [] <==> forall j :: 0 <= j < i && Has(State(), KINDS[j], id) ==> KINDS[j] == own
      {
        if Has(State(), KINDS[i], id) && KINDS[i] != own {
          conflicts := conflicts + [KINDS[i]];
        }
      }
      EveryKind();
      assert forall kind :: Has(State(), kind, id) ==> kind in KINDS;
      return conflicts == [];
    }

    // ----- log -----

    method AppendFactRevision(fact: Fact, kind: string)
      modifies `sequence, `factRevisions
      ensures var (numbered, rid) := NewId(old(State()), FACT_REVISION_PREFIX);
              State() == numbered.(factRevisions :=
                numbered.factRevisions[rid := NewFactRevision(rid, fact, kind, fact.updatedAt)])
    {
      var rid := NewIDLocked(FACT_REVISION_PREFIX);
      factRevisions := factRevisions[rid := NewFactRevision(rid, fact, kind, fact.updatedAt)];
    }

    method AppendEntityRevision(entity: Entity, kind: string)
      modifies `sequence, `entityRevisions
      ensures var (numbered, rid) := NewId(old(State()), ENTITY_REVISION_PREFIX);
              State() == numbered.(entityRevisions :=
                numbered.entityRevisions[rid := NewEntityRevision(rid, entity, kind, entity.updatedAt)])
    {
      var rid := NewIDLocked(ENTITY_REVISION_PREFIX);
      entityRevisions := entityRevisions[rid := NewEntityRevision(rid, entity, kind, entity.updatedAt)];
    }

    method StoreFact(id: string, fact: Fact, kind: string)
      modifies `sequence, `facts, `factRevisions
      ensures State() == PutFact(old(State()), id, fact, kind)
    {
      hide NewId;
      facts := facts[id := fact];
      AppendFactRevision(fact, kind);
    }

    method StoreEntity(id: string, entity: Entity, kind: string)
      modifies `sequence, `entities, `entityRevisions
      ensures State() == PutEntity(old(State()), id, entity, kind)
    {
      hide NewId;
      entities := entities[id := entity];
      AppendEntityRevision(entity, kind);
    }

    // ----- episodes -----

    method AdmitSourceLocked(spaceId: string, input: EpisodeInput, source: Source) returns (r: Result<()>)
      modifies `sources
      ensures r.Ok? ==> AdmitSource(old(State()), spaceId, input, source) == Ok(State())
      ensures r.Err? ==> AdmitSource(old(State()), spaceId, input, source) == Err(r.error)
    {
      hide IdAvailable;
      var ok := EnsureGlobalIDAvailable(source.id, KSource);
      if !ok {
        return Err(InputInvalid);
      }
      if source.id in sources {
        var existing := sources[source.id];
        if existing.spaceId != spaceId {
          return Err(LifecycleInvalid);
        }
        if input.sourceId == "" && input.source.id == "" &&
           (existing.spaceId != source.spaceId || existing.kind != source.kind || existing.externalRef != source.externalRef) {
          return Err(LifecycleInvalid);
        }
      } else {
        sources := sources[source.id := source];
      }
      return Ok(());
    }

    method IngestEpisodeLocked(spaceId: string, input: EpisodeInput, sourceId: string, now: int) returns (r: Result<string>)
      modifies `sequence, `episodes
      ensures r.Ok? ==> var spec := AdmitEpisode(old(State()), spaceId, input, sourceId, now);
                        spec.Ok? && spec.value.state == State() && spec.value.id == r.value
      ensures r.Err? ==> AdmitEpisode(old(State()), spaceId, input, sourceId, now) == Err(r.error)
    {
      hide IdAvailable, NewId;
      var id := input.id;
      if id == "" {
        id := NewIDLocked("ep");
      } else {
        var ok := EnsureGlobalIDAvailable(id, KEpisode);
        if !ok {
          return Err(InputInvalid);
        }
      }
      if id in episodes {
        if !SameEpisode(episodes[id], spaceId, input, sourceId) {
          return Err(LifecycleInvalid);
        }
      } else {
        episodes := episodes[id := Episode(id, spaceId, input.kind, input.content, sourceId, input.groupId,
                                           input.observedAt, now, input.metadata)];
      }
      return Ok(id);
    }

    method IngestEpisodeBody(d: Derivation, input: EpisodeInput) returns (r: Result<string>)
      modifies `sequence, `sources, `episodes
      ensures r.Ok? ==> var spec := IngestEpisode(old(State()), d, input, txTime);
                        spec.Ok? && spec.value.state == State() && spec.value.id == r.value
      ensures r.Err? ==> IngestEpisode(old(State()), d, input, txTime) == Err(r.error)
    {
      hide AdmitSource, AdmitEpisode;
      if Blank(input.kind) || Blank(input.content) {
        return Err(InputInvalid);
      }
      var spaceId := SpaceOf(input.spaceId);
      var source := ResolveSource(State(), d, spaceId, input.sourceId, input.source, txTime);
      if source.Err? {
        return Err(source.error);
      }
      var admitted := AdmitSourceLocked(spaceId, input, source.value);
      if admitted.Err? {
        return Err(admitted.error);
      }
      r := IngestEpisodeLocked(spaceId, input, source.value.id, txTime);
    }

    // ----- entities -----

    method UpsertEntityLocked(d: Derivation, input: EntityInput) returns (r: Result<Entity>)
      modifies `sequence, `entities, `entityRevisions
      ensures r.Ok? ==> UpsertEntity(old(State()), d, input, txTime) == Ok(EntityDone(State(), r.value))
      ensures r.Err? ==> UpsertEntity(old(State()), d, input, txTime) == Err(r.error)
    {
      hide IdAvailable, PutEntity, EntityTarget, UpdatedEntity, CreatedEntity, UpdateAllowed, Blank;
      if Blank(input.typ) || Blank(input.canonicalName) {
        return Err(InputInvalid);
      }
      if !(input.metadata.Keys !! RESERVED_ENTITY_KEYS) {
        return Err(LifecycleInvalid);
      }
      var id := EntityTarget(State(), d, input);
      var ok := EnsureGlobalIDAvailable(id, KEntity);
      if !ok {
        return Err(InputInvalid);
      }
      if id !in entities {
        var entity := CreatedEntity(id, input, txTime);
        StoreEntity(id, entity, "assert");
        return Ok(entity);
      }
      if !UpdateAllowed(entities[id], input) {
        return Err(LifecycleInvalid);
      }
      var entity := UpdatedEntity(entities[id], input, txTime);
      StoreEntity(id, entity, "update");
      return Ok(entity);
    }

    // ----- facts -----

    /** The supporting IDs as stored: verified one by one, first occurrences kept. */
    method CheckSupport(spaceId: string, ids: seq<string>) returns (r: Result<seq<string>>)
      ensures r == if forall id :: id in ids ==> SupportOk(State(), spaceId, id) then Ok(Distinct(ids)) else Err(InputInvalid)
    {
      hide Trim;
      var kept: seq<string> := [];
      var seen: set<string> := {};
      for i := 0 to |ids|
        invariant kept == Distinct(ids[..i])
        invariant forall id :: id in seen <==> id in ids[..i]
        invariant forall id :: id in ids[..i] ==> SupportOk(State(), spaceId, id)
      {
        var id := ids[i];
        assert ids[..i + 1] == ids[..i] + [id] && ids[..i + 1][..i] == ids[..i];
        assert id in ids;
        if id == "" || Trim(id) != id {
          assert !SupportOk(State(), spaceId, id);
          return Err(InputInvalid);
        }
        if id !in seen {
          if id !in episodes || episodes[id].spaceId != spaceId {
            assert !SupportOk(State(), spaceId, id);
            return Err(InputInvalid);
          }
          seen := seen + {id};
          kept := kept + [id];
        }
      }
      assert ids[..|ids|] == ids;
      return Ok(kept);
    }

    /** factSlotOccupantsLocked: the occupants, in ID order whatever the map order. */
    method FactSlotOccupants(spaceId: string, subjectId: string, predicate_: string, from: int, to: int)
      returns (ids: seq<string>)
      ensures forall id :: id in ids <==> id in SlotOccupants(State(), spaceId, subjectId, predicate_, from, to)
      ensures Sorted(ids, Less)
    {
      ids := [];
      var todo := facts.Keys;
      while todo != {}
        invariant todo <= facts.Keys
        invariant forall id :: id in ids <==>
          id in facts.Keys - todo && id in SlotOccupants(State(), spaceId, subjectId, predicate_, from, to)
        invariant forall i, j :: 0 <= i < j < |ids| ==> ids[i] != ids[j]
        decreases |todo|
      {
        var id :| id in todo;
        assert id !in ids;
        todo := todo - {id};
        if HoldsSlot(facts[id], spaceId, subjectId, predicate_) &&
           FactValidityOverlaps(facts[id].validFrom, facts[id].validTo, from, to) {
          ids := ids + [id];
        }
      }
      LessIsStrict();
      forall i, j | 0 <= i < j < |ids|
        ensures Less(ids[i], ids[j]) || Less(ids[j], ids[i])
      {
        LessTotal(ids[i], ids[j]);
      }
      SortSorts(ids, Less);
      ids := Sort(ids, Less);
    }

    method AssertFactLocked(spaceId: string, input: FactInput) returns (r: Result<Fact>)
      modifies `sequence, `facts, `factRevisions
      ensures r.Ok? ==> AssertFact(old(State()), spaceId, input, txTime) == Ok(FactDone(State(), r.value))
      ensures r.Err? ==> AssertFact(old(State()), spaceId, input, txTime) == Err(r.error)
    {
      hide IdAvailable, NewId, PutFact, AdmitFact;
      var support := CheckFact(spaceId, input);
      if support.Err? {
        return Err(support.error);
      }
      var id := input.id;
      if id == "" {
        id := NewIDLocked("fact");
      } else {
        var ok := EnsureGlobalIDAvailable(id, KFact);
        if !ok {
          return Err(InputInvalid);
        }
      }
      if id in facts {
        return Err(LifecycleInvalid);
      }
      var fact := Fact(id, spaceId, input.predicate_, input.subjectId, input.objectId, input.valueText,
                       input.confidence, Active, input.validFrom, input.validTo, input.observedAt,
                       txTime, txTime, UNSET, "", support.value, input.metadata);
      StoreFact(id, fact, "assert");
      return Ok(fact);
    }

    /** The checks of assertFactLocked that run before an ID is chosen. */
    method CheckFact(spaceId: string, input: FactInput) returns (r: Result<seq<string>>)
      ensures r.Ok? ==> AdmitFact(State(), spaceId, input).Ok? && r.value == Distinct(input.support)
      ensures r.Err? ==> AdmitFact(State(), spaceId, input) == Err(r.error)
    {
      hide Blank, Trim, DedupeTrimmed, SupportOk, HoldsSlot, FactValidityOverlaps, Distinct;
      if !ValidFactInput(input) {
        return Err(InputInvalid);
      }
      if !EndpointOk(State(), spaceId, input.subjectId) {
        return Err(EntityNotFound);
      }
      if input.objectId != "" && !EndpointOk(State(), spaceId, input.objectId) {
        return Err(EntityNotFound);
      }
      var support := CheckSupport(spaceId, input.support);
      if support.Err? {
        return support;
      }
      var status := input.status.GetOr(Active);
      if status.OtherStatus? {
        return Err(InputInvalid);
      }
      if status != Active || !(input.metadata.Keys !! RESERVED_FACT_KEYS) {
        return Err(LifecycleInvalid);
      }
      var cardinality := CardinalityOf(input);
      if (cardinality != "one" && cardinality != "many") || !ValidFactInterval(input.validFrom, input.validTo) {
        return Err(InputInvalid);
      }
      if cardinality == "one" {
        var occupants := FactSlotOccupants(spaceId, input.subjectId, input.predicate_, input.validFrom, input.validTo);
        if |occupants| > 0 {
          assert occupants[0] in occupants;
          return Err(FactConflict);
        }
      }
      return support;
    }

    method SupersedeFactLocked(factId: string, input: FactInput, reason: string) returns (r: Result<string>)
      modifies `sequence, `facts, `factRevisions, `txTime
      ensures r.Ok? ==> SupersedeFact(old(State()), factId, input, reason, old(txTime)) ==
                        Ok(SupersedeDone(State(), factId, r.value))
      ensures r.Err? ==> SupersedeFact(old(State()), factId, input, reason, old(txTime)) == Err(r.error)
    {
      hide AssertFact, PutFact, Trim, Blank;
      if factId !in facts {
        return Err(FactNotFound);
      }
      var target := facts[factId];
      if !SupersedeAllowed(target, input) {
        return Err(LifecycleInvalid);
      }
      txTime := StrictlyAfter(txTime, target.updatedAt);
      var asserted := AssertFactLocked(target.spaceId, Additive(input));
      if asserted.Err? {
        return Err(asserted.error);
      }
      var successor := asserted.value;
      StoreFact(factId, RetiredFact(target, input, successor, reason), "supersede");
      StoreFact(successor.id, ReplacementFact(successor, factId, reason), "supersede_replacement");
      return Ok(successor.id);
    }

    method RetractFactBody(factId: string, reason: string) returns (r: Result<()>)
      modifies `sequence, `facts, `factRevisions
      ensures r.Ok? ==> RetractFact(old(State()), factId, reason, txTime) == Ok(State())
      ensures r.Err? ==> RetractFact(old(State()), factId, reason, txTime) == Err(r.error)
    {
      hide PutFact;
      if factId !in facts {
        return Err(FactNotFound);
      }
      if facts[factId].status != Retracted {
        StoreFact(factId, RetractedFact(facts[factId], reason, txTime), "retract");
      }
      return Ok(());
    }

    // ----- batches -----

    method BatchEpisodesBody(d: Derivation, inputs: seq<EpisodeInput>) returns (r: Result<seq<string>>)
      modifies `sequence, `sources, `episodes
      ensures var b0 := BatchDone(old(State()), [], [], [], map[]);
              var spec := BatchEpisodes(b0, d, inputs, txTime);
              if r.Ok? then spec == Ok(b0.(state := State(), episodeIds := r.value)) else Explained(r.error, spec)
    {
      hide IngestEpisode;
      ghost var b0 := BatchDone(State(), [], [], [], map[]);
      var ids: seq<string> := [];
      for i := 0 to |inputs|
        invariant BatchEpisodes(b0, d, inputs[..i], txTime) == Ok(b0.(state := State(), episodeIds := ids))
      {
        assert inputs[..i + 1][..i] == inputs[..i];
        var canceled := CtxErr();
        if canceled {
          return Err(Error.Canceled);
        }
        var item := IngestEpisodeBody(d, inputs[i]);
        if item.Err? {
          BatchEpisodesFails(b0, d, inputs, i + 1, txTime);
          return Err(item.error);
        }
        ids := ids + [item.value];
      }
      assert inputs[..|inputs|] == inputs;
      return Ok(ids);
    }

    method BatchEntitiesBody(d: Derivation, inputs: seq<EntityInput>, ghost b0: BatchDone)
      returns (r: Result<map<string, string>>)
      requires b0.state == State() && b0.rewrites == map[]
      modifies `sequence, `entities, `entityRevisions
      ensures var spec := BatchEntities(b0, d, inputs, txTime);
              if r.Ok? then spec.Ok? && spec.value.state == State() && spec.value.rewrites == r.value
              else Explained(r.error, spec)
    {
      hide UpsertEntity, ReferenceOf;
      var rewrites: map<string, string> := map[];
      for i := 0 to |inputs|
        invariant var front := BatchEntities(b0, d, inputs[..i], txTime);
                  front.Ok? && front.value.state == State() && front.value.rewrites == rewrites
      {
        assert inputs[..i + 1][..i] == inputs[..i];
        var canceled := CtxErr();
        if canceled {
          return Err(Error.Canceled);
        }
        var item := UpsertEntityLocked(d, inputs[i]);
        if item.Err? {
          BatchEntitiesFails(b0, d, inputs, i + 1, txTime);
          return Err(item.error);
        }
        var reference := ReferenceOf(d, inputs[i]);
        if reference in rewrites && rewrites[reference] != item.value.id {
          BatchEntitiesFails(b0, d, inputs, i + 1, txTime);
          return Err(LifecycleInvalid);
        }
        rewrites := rewrites[reference := item.value.id];
      }
      assert inputs[..|inputs|] == inputs;
      return Ok(rewrites);
    }

    method BatchFactsBody(inputs: seq<FactInput>, rewrites: map<string, string>, ghost b0: BatchDone) returns (r: Result<()>)
      requires b0.state == State() && b0.rewrites == rewrites
      modifies `sequence, `facts, `factRevisions
      ensures var spec := BatchFacts(b0, inputs, txTime);
              if r.Ok? then spec.Ok? && spec.value.state == State() else Explained(r.error, spec)
    {
      hide AssertFact, SpaceOf, Rewritten;
      for i := 0 to |inputs|
        invariant var front := BatchFacts(b0, inputs[..i], txTime);
                  front.Ok? && front.value.state == State() && front.value.rewrites == rewrites
      {
        assert inputs[..i + 1][..i] == inputs[..i];
        var canceled := CtxErr();
        if canceled {
          return Err(Error.Canceled);
        }
        var input := Rewritten(rewrites, inputs[i]);
        var item := AssertFactLocked(SpaceOf(input.spaceId), input);
        if item.Err? {
          BatchFactsFails(b0, inputs, i + 1, txTime);
          return Err(item.error);
        }
      }
      assert inputs[..|inputs|] == inputs;
      return Ok(());
    }

    method IngestBatchBody(d: Derivation, input: BatchInput) returns (r: Result<()>)
      modifies `sequence, `sources, `episodes, `entities, `entityRevisions, `facts, `factRevisions
      ensures var spec := IngestBatch(old(State()), d, input, txTime);
              if r.Ok? then spec.Ok? && spec.value.state == State() else Explained(r.error, spec)
    {
      hide BatchEpisodes, BatchEntities, BatchFacts;
      ghost var b0 := BatchDone(State(), [], [], [], map[]);
      var episodeIds := BatchEpisodesBody(d, input.episodes);
      if episodeIds.Err? {
        return Err(episodeIds.error);
      }
      ghost var b1 := b0.(state := State(), episodeIds := episodeIds.value);
      var rewrites := BatchEntitiesBody(d, input.entities, b1);
      if rewrites.Err? {
        return Err(rewrites.error);
      }
      ghost var b2 := BatchEntities(b1, d, input.entities, txTime).value;
      r := BatchFactsBody(input.facts, rewrites.value, b2);
      if r.Ok? && input.hasRevisions {
        return Err(LifecycleInvalid);
      }
    }

    // ----- the commit bracket -----

    /** A usable engine: its records carry their own IDs, and the last saved state, once
        seeded, is the state in memory. Every database that opens gives such an engine. */
    ghost predicate Valid()
      reads this, store.Footprint()
    {
      store.Valid() && store.Loaded() && WellKeyed(State()) && txTime == UNSET && poisoned == store.Poisoned() &&
      Seed(store.LastState(), seededAt) == State()
    }

    /** What reopening would load, once seeded, is what the engine serves. */
    ghost predicate DiskAgrees()
      reads this, store.Footprint()
    {
      exists disk :: store.Holds(disk) && Seed(disk, seededAt) == State()
    }

    /** The save of this mutation has an unknown outcome. */
    ghost predicate InDoubt(last: EngineSpec.State, spec: Result<EngineSpec.State>)
      reads store.Footprint()
    {
      spec.Ok? && store.InDoubt(last, spec.value)
    }

    lemma ValidAgrees()
      requires Valid() && !poisoned
      ensures DiskAgrees()
    {
      hide Loads, WellKeyed, Seed;
      store.LastIsOnDisk();
    }

    /** The function handed to mutateLocked. */
    method MutationBody(d: Derivation, op: Op) returns (r: Result<()>)
      modifies `sequence, `sources, `episodes, `entities, `entityRevisions, `facts, `factRevisions, `txTime
      ensures var spec := Mutation(old(State()), d, op, old(txTime));
              if r.Ok? then spec == Ok(State()) else Explained(r.error, spec)
    {
      hide IngestEpisode, IngestBatch, UpsertEntity, AssertFact, SupersedeFact, RetractFact, SpaceOf;
      match op {
        case IngestOp(input) =>
          var done := IngestEpisodeBody(d, input);
          r := if done.Ok? then Ok(()) else Err(done.error);
        case BatchOp(input) =>
          r := IngestBatchBody(d, input);
        case UpsertOp(input) =>
          var done := UpsertEntityLocked(d, input);
          r := if done.Ok? then Ok(()) else Err(done.error);
        case AssertOp(input) =>
          var done := AssertFactLocked(SpaceOf(input.spaceId), input);
          r := if done.Ok? then Ok(()) else Err(done.error);
        case SupersedeOp(target, input, reason) =>
          var done := SupersedeFactLocked(target, input, reason);
          r := if done.Ok? then Ok(()) else Err(done.error);
        case RetractOp(target, reason) =>
          r := RetractFactBody(target, reason);
      }
    }

    method RestoreLocked(snapshot: EngineSpec.State)
      modifies `sequence, `sources, `episodes, `entities, `entityRevisions, `facts, `factRevisions, `watermarks, `txTime
      ensures State() == snapshot && txTime == UNSET
    {
      sequence := snapshot.sequence;
      sources, episodes, entities, facts := snapshot.sources, snapshot.episodes, snapshot.entities, snapshot.facts;
      factRevisions, entityRevisions := snapshot.factRevisions, snapshot.entityRevisions;
      watermarks := snapshot.watermarks;
      txTime := UNSET;
    }

    /** saveLocked. `snapshot` is the state saved last, once seeded. */
    method SaveLocked(ghost snapshot: EngineSpec.State) returns (outcome: Outcome)
      requires store.Valid() && store.Loaded() && !store.Poisoned()
      requires WellKeyed(State()) && Carries(snapshot, State()) && Seed(store.LastState(), seededAt) == snapshot
      modifies store.Footprint()
      ensures store.Valid() && store.Loaded() && State() == old(State())
      ensures outcome == Unknown <==> store.Poisoned()
      ensures outcome != Saved ==> store.LastState() == old(store.LastState())
      ensures Seed(store.LastState(), seededAt) == if outcome == Saved && !store.ReadOnly() then State() else snapshot
      ensures outcome == Saved && !store.ReadOnly() ==> store.LastState() == State()
      ensures outcome == Failed || outcome == TooLarge ==> store.Rows() == old(store.Rows())
      ensures outcome != Unknown ==> store.Holds(store.LastState())
      ensures outcome == Unknown ==> store.InDoubt(store.LastState(), State())
      ensures store.OnLattice? ==> store.lattice.ready == old(store.lattice.ready)
      ensures store.OnLattice? && !store.ReadOnly() && outcome == Saved ==> !Lattice.Dangles(old(store.LastState()), State())
    {
      hide Loads, WellKeyed, Seed, Carries, Lattice.Dangles, Lattice.KeepsEndpoints, Backend.Valid, Backend.LastState, Backend.Rows,
           Backend.Loaded, Backend.Poisoned, Backend.ReadOnly, Backend.InDoubt, Backend.Holds, AllNamed;
      SeedMarks(store.LastState(), seededAt, snapshot, State());
      store.LastIsNamed();
      StaysNamed(store.LastState(), seededAt, snapshot, State());
      outcome := store.Save(State());
      if outcome != Unknown {
        store.LastIsOnDisk();
      }
    }

    /** A save that failed leaves the snapshot, and an unknown one poisons the engine too. */
    method RollBack(snapshot: EngineSpec.State, outcome: Outcome)
      requires store.Valid() && store.Loaded() && WellKeyed(snapshot) && Seed(store.LastState(), seededAt) == snapshot
      requires outcome == Unknown <==> store.Poisoned()
      modifies this
      ensures Valid() && State() == snapshot && seededAt == old(seededAt) && (poisoned <==> outcome == Unknown)
    {
      hide WellKeyed, Seed, Rhiza.RhizaStore.Valid, Lattice.LatticeStore.Valid, Lattice.LatticeStore.Sound;
      RestoreLocked(snapshot);
      poisoned := outcome == Unknown;
    }

    /** The end of mutateLocked: save the new state, or put the snapshot back. */
    method CommitLocked(snapshot: EngineSpec.State) returns (r: Result<()>)
      requires store.Valid() && store.Loaded() && !store.Poisoned() && !store.ReadOnly() && !poisoned
      requires WellKeyed(snapshot) && WellKeyed(State()) && Carries(snapshot, State())
      requires Seed(store.LastState(), seededAt) == snapshot
      modifies this, store.Footprint()
      ensures Valid() && seededAt == old(seededAt)
      ensures r.Ok? ==> !poisoned && State() == old(State()) && store.LastState() == State()
      ensures r.Err? ==> State() == snapshot && (r.error == StorageFailed || r.error == InputInvalid)
      ensures r.Err? && !poisoned ==> store.Rows() == old(store.Rows())
      ensures poisoned ==> store.InDoubt(old(store.LastState()), old(State()))
      ensures store.OnLattice? ==> store.lattice.ready == old(store.lattice.ready)
      ensures store.OnLattice? && r.Ok? ==> !Lattice.Dangles(old(store.LastState()), State())
    {
      hide Loads, WellKeyed, Seed, Carries, Lattice.Dangles, Lattice.KeepsEndpoints, Backend.Valid, Backend.LastState, Backend.Rows,
           Backend.Loaded, Backend.Poisoned, Backend.ReadOnly, Backend.InDoubt, Backend.Holds;
      var outcome := SaveLocked(snapshot);
      if outcome == Saved {
        txTime := UNSET;
        return Ok(());
      }
      RollBack(snapshot, outcome);
      return Err(if outcome == TooLarge then InputInvalid else StorageFailed);
    }

    /** The middle of mutateLocked: run the mutation, and put the snapshot back if it
        fails or the caller has given up by the end. */
    method RunLocked(d: Derivation, op: Op, now: int, snapshot: EngineSpec.State) returns (r: Result<()>)
      requires snapshot == State() && WellKeyed(snapshot)
      modifies `sequence, `sources, `episodes, `entities, `entityRevisions, `facts, `factRevisions, `watermarks, `txTime
      ensures r.Ok? ==> Mutation(snapshot, d, op, now) == Ok(State()) && WellKeyed(State()) && Carries(snapshot, State())
      ensures r.Err? ==> State() == snapshot && txTime == UNSET && Explained(r.error, Mutation(snapshot, d, op, now))
    {
      hide Mutation, WellKeyed, Carries, Inv;
      txTime := now;
      r := MutationBody(d, op);
      var canceled := CtxErr();
      if r.Err? || canceled {
        RestoreLocked(snapshot);
        return if r.Err? then r else Err(Error.Canceled);
      }
      Mutated(snapshot, d, op, now);
    }

    /** mutateLocked: take a snapshot, run the mutation, save, and on any failure put
        the snapshot back. Whatever the store answered and wherever the caller gave up,
        either the engine is poisoned, or memory and disk agree. */
    method Mutate(d: Derivation, op: Op, now: int) returns (r: Result<()>)
      requires Valid()
      modifies this, store.Footprint()
      ensures Valid() && seededAt == old(seededAt)
      ensures r.Ok? ==> !poisoned && Mutation(old(State()), d, op, now) == Ok(State()) && store.LastState() == State()
      ensures r.Err? ==> State() == old(State())
      ensures r.Err? && !poisoned ==> store.Rows() == old(store.Rows())
      ensures r.Err? ==> r.error in {StorageFailed, NotSupported, InputInvalid} ||
                         Explained(r.error, Mutation(old(State()), d, op, now))
      ensures old(poisoned) ==> poisoned && r.Err?
      ensures poisoned && !old(poisoned) ==> InDoubt(old(store.LastState()), Mutation(old(State()), d, op, now))
      ensures !poisoned ==> DiskAgrees()
      ensures Carries(old(State()), State()) && (old(Inv(State())) && now > 0 ==> Inv(State()))
      ensures store.OnLattice? ==> store.lattice.ready == old(store.lattice.ready)
      ensures store.OnLattice? && r.Ok? ==> !Lattice.Dangles(old(store.LastState()), State())
    {
      hide Inv, Mutation, Loads, WellKeyed, Seed, Carries, Explained, Lattice.Dangles, Lattice.KeepsEndpoints, DiskAgrees, Backend.Valid,
           Backend.LastState, Backend.Rows, Backend.Loaded, Backend.Poisoned, Backend.ReadOnly, Backend.InDoubt, Backend.Holds,
           Engine.InDoubt;
      CarriesSelf(State());
      r := TryLocked(d, op, now);
      if r.Ok? {
        Mutated(old(State()), d, op, now);
      }
      if !poisoned {
        ValidAgrees();
      }
    }

    /** mutateLocked up to its contract on disk and memory. */
    method TryLocked(d: Derivation, op: Op, now: int) returns (r: Result<()>)
      requires Valid()
      modifies this, store.Footprint()
      ensures Valid() && seededAt == old(seededAt)
      ensures r.Ok? ==> !poisoned && Mutation(old(State()), d, op, now) == Ok(State()) && store.LastState() == State()
      ensures r.Err? ==> State() == old(State())
      ensures r.Err? && !poisoned ==> store.Rows() == old(store.Rows())
      ensures r.Err? ==> r.error in {StorageFailed, NotSupported, InputInvalid} ||
                         Explained(r.error, Mutation(old(State()), d, op, now))
      ensures old(poisoned) ==> poisoned && r.Err?
      ensures poisoned && !old(poisoned) ==> InDoubt(old(store.LastState()), Mutation(old(State()), d, op, now))
      ensures store.OnLattice? ==> store.lattice.ready == old(store.lattice.ready)
      ensures store.OnLattice? && r.Ok? ==> !Lattice.Dangles(old(store.LastState()), State())
    {
      hide Mutation, Loads, WellKeyed, Seed, Carries, Lattice.Dangles, Lattice.KeepsEndpoints, Backend.Valid, Backend.LastState,
           Backend.Rows, Backend.Loaded, Backend.Poisoned, Backend.ReadOnly, Backend.InDoubt, Backend.Holds;
      var canceled := CtxErr();
      if canceled {
        return Err(Error.Canceled);
      }
      if poisoned {
        return Err(StorageFailed);
      }
      if store.ReadOnly() {
        return Err(NotSupported);
      }
      var snapshot := State();
      r := RunLocked(d, op, now, snapshot);
      if r.Ok? {
        r := CommitLocked(snapshot);
      }
    }

    /** Close saves once more, unless the engine is poisoned. */
    method Close() returns (r: Result<()>)
      requires Valid()
      modifies this, store.Footprint()
      ensures Valid() && State() == old(State()) && seededAt == old(seededAt)
      ensures !poisoned ==> DiskAgrees()
      ensures r.Ok? && !store.ReadOnly() ==> store.Holds(State())
      ensures poisoned && !old(poisoned) ==> store.InDoubt(old(store.LastState()), State())
    {
      hide Loads, WellKeyed, Seed, Lattice.Dangles, Lattice.KeepsEndpoints, DiskAgrees, Backend.Valid, Backend.LastState, Backend.Rows,
           Backend.Loaded, Backend.Poisoned, Backend.ReadOnly, Backend.InDoubt, Backend.Holds;
      if poisoned {
        return Err(StorageFailed);
      }
      CarriesSelf(State());
      var outcome := SaveLocked(State());
      poisoned := outcome == Unknown;
      if !poisoned {
        ValidAgrees();
      }
      return if outcome == Saved then Ok(()) else Err(if outcome == TooLarge then InputInvalid else StorageFailed);
    }

    /** What GetFact serves is what is on disk: a fact is found exactly if reloading would
        find it, and it is the same fact. A poisoned engine serves nothing. */
    method GetFact(id: string) returns (r: Result<Fact>)
      requires Valid()
      ensures poisoned ==> r == Err(StorageFailed)
      ensures r.Ok? ==> r.value.id == id
      ensures !poisoned ==> forall disk :: store.Holds(disk) ==>
        r == if id in disk.facts then Ok(disk.facts[id]) else Err(FactNotFound)
    {
      hide Loads, WellKeyed;
      if poisoned {
        return Err(StorageFailed);
      }
      r := if id in facts then Ok(facts[id]) else Err(FactNotFound);
      KeyedIsWellKeyed(State());
      store.LastIsOnDisk();
      SeedKeepsFacts(store.LastState(), seededAt);
      forall disk | store.Holds(disk)
        ensures disk == store.LastState()
      {
        store.HoldsOne(disk, store.LastState());
      }
    }
  }

  lemma SeedKeepsFacts(s: EngineSpec.State, at: int)
    ensures Seed(s, at).facts == s.facts && Seed(s, at).entities == s.entities
  {
  }

  /** What the seed gives needs no other seed. */
  lemma SeededOnce(s: EngineSpec.State, at: int, later: int)
    ensures Seed(Seed(s, at), later) == Seed(s, at)
  {
  }

  /** A successful mutation leaves a state that the store can save. */
  lemma Mutated(s: EngineSpec.State, d: Derivation, op: Op, now: int)
    requires WellKeyed(s) && Mutation(s, d, op, now).Ok?
    ensures var t := Mutation(s, d, op, now).value;
            WellKeyed(t) && Carries(s, t) && (Inv(s) && now > 0 ==> Inv(t))
  {
    hide Inv, Mutation, Grows, WellKeyed, Carries;
    StepKeepsWellKeyed(s, d, op, now);
    StepCarries(s, d, op, now);
    if Inv(s) && now > 0 {
      StepKeepsInv(s, d, op, now);
    }
  }

  /** The seed leaves a mark that no mutation removes, so what is saved needs no seed. It
      keeps the entities, and so does every mutation. */
  lemma SeedMarks(last: EngineSpec.State, at: int, s: EngineSpec.State, t: EngineSpec.State)
    requires Seed(last, at) == s && Carries(s, t)
    ensures Seed(t, at) == t && Seed(last, at) == s
    ensures Lattice.KeepsEndpoints(last, t)
  {
    SeedKeepsFacts(last, at);
    hide IdsUnique, Keyed, AllNamed;
  }

  /** What is saved has IDs throughout if what was loaded had. */
  lemma StaysNamed(last: EngineSpec.State, at: int, s: EngineSpec.State, t: EngineSpec.State)
    requires Seed(last, at) == s && Carries(s, t)
    ensures AllNamed(last) ==> AllNamed(t)
  {
    hide IdsUnique, Keyed, AllNamed, Seed;
    if AllNamed(last) {
      SeedKeepsNames(last, at);
    }
  }

  /** Open: load, check global identity, seed. Any database whose IDs are unique opens,
      from before the revision log or after. */
  method Open(store: Backend, now: int) returns (r: Result<Engine>)
    requires store.Valid() && !store.Loaded() && !store.Poisoned()
    modifies store.Footprint()
    ensures store.Valid() && store.Rows() == old(store.Rows())
    ensures r.Ok? ==> store.Loaded() && !store.Poisoned()
    ensures r.Ok? ==>
      fresh(r.value) && r.value.store == store && r.value.Valid() && !r.value.poisoned && r.value.DiskAgrees() &&
      IdsUnique(store.LastState()) && r.value.State() == Seed(store.LastState(), now)
  {
    hide Loads, IdsUnique, Seed, WellKeyed;
    var loaded := store.Load();
    if loaded.Err? {
      return Err(loaded.error);
    }
    var unique := ValidateGlobalRecordIDs(loaded.value);
    if !unique {
      return Err(StorageFailed);
    }
    var eng := new Engine(store, loaded.value, now);
    store.HoldsOne(loaded.value, loaded.value);
    SeedKeepsWellKeyed(loaded.value, now);
    eng.ValidAgrees();
    return Ok(eng);
  }

  /** Reopening gives back exactly the state in memory. Only a seed that was never
      saved can differ, in the time it was applied. */
  lemma ReopenRestores(store: Backend, disk: EngineSpec.State, again: EngineSpec.State, seededAt: int, now: int)
    requires store.Holds(disk) && store.Holds(again)
    ensures WATERMARK in disk.watermarks ==> Seed(again, now) == Seed(disk, seededAt)
    ensures Seed(again, seededAt) == Seed(disk, seededAt)
  {
    store.HoldsOne(disk, again);
  }

  lemma {:induction false} BatchEpisodesFails(b: BatchDone, d: Derivation, inputs: seq<EpisodeInput>, i: nat, now: int)
    requires i <= |inputs| && BatchEpisodes(b, d, inputs[..i], now).Err?
    ensures BatchEpisodes(b, d, inputs, now) == Err(BatchEpisodes(b, d, inputs[..i], now).error)
    decreases |inputs|
  {
    hide IngestEpisode;
    if i == |inputs| {
      assert inputs[..i] == inputs;
    } else {
      assert inputs[..|inputs| - 1][..i] == inputs[..i];
      BatchEpisodesFails(b, d, inputs[..|inputs| - 1], i, now);
    }
  }

  lemma {:induction false} BatchEntitiesFails(b: BatchDone, d: Derivation, inputs: seq<EntityInput>, i: nat, now: int)
    requires i <= |inputs| && BatchEntities(b, d, inputs[..i], now).Err?
    ensures BatchEntities(b, d, inputs, now) == Err(BatchEntities(b, d, inputs[..i], now).error)
    decreases |inputs|
  {
    hide UpsertEntity, ReferenceOf;
    if i == |inputs| {
      assert inputs[..i] == inputs;
    } else {
      assert inputs[..|inputs| - 1][..i] == inputs[..i];
      BatchEntitiesFails(b, d, inputs[..|inputs| - 1], i, now);
    }
  }

  lemma {:induction false} BatchFactsFails(b: BatchDone, inputs: seq<FactInput>, i: nat, now: int)
    requires i <= |inputs| && BatchFacts(b, inputs[..i], now).Err?
    ensures BatchFacts(b, inputs, now) == Err(BatchFacts(b, inputs[..i], now).error)
    decreases |inputs|
  {
    hide AssertFact, Rewritten, SpaceOf;
    if i == |inputs| {
      assert inputs[..i] == inputs;
    } else {
      assert inputs[..|inputs| - 1][..i] == inputs[..i];
      BatchFactsFails(b, inputs[..|inputs| - 1], i, now);
    }
  }

  lemma KindsOf(s: EngineSpec.State, id: string)
    ensures id in AllIds(s) <==>
      id in s.sources || id in s.episodes || id in s.entities || id in s.facts ||
      id in s.factRevisions || id in s.entityRevisions || id in s.watermarks
  {
  }
}
