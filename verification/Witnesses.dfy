/** Concrete runs on which a property one might expect fails. Each belongs to an exact
    condition proved elsewhere, and shows that the failing side of it is reached. */
module Witnesses {
  import opened Wrappers
  import opened Text
  import opened Identity
  import opened Records
  import opened EngineSpec
  import opened Invariants
  import opened Preservation
  import opened Cuts
  import opened LookupSpec
  import opened Encoding
  import opened NeighborhoodQuery
  import opened VisitOrder
  import TimeTravel
  import AnyState
  import Lattice
  import Slots
  import Neighborhood
  import Merge
  import Forest

  // ----- inputs that are accepted -----

  ghost predicate Unknown(s: State, id: string) {
    forall kind :: !Has(s, kind, id)
  }

  lemma UnknownIsAvailable(s: State, id: string, own: Kind)
    requires Unknown(s, id)
    ensures IdAvailable(s, id, own)
  {
  }

  predicate PlainEpisode(input: EpisodeInput) {
    !Blank(input.kind) && !Blank(input.content) && input.id != "" && input.sourceId != "" && input.spaceId == "" &&
    input.source == SourceInput("", "", "", "", "", map[])
  }

  /** An episode with explicit IDs: the source is created if it is new. */
  lemma Ingested(s: State, d: Derivation, input: EpisodeInput, now: int)
    requires PlainEpisode(input) && input.id !in s.episodes
    requires IdAvailable(s, input.id, KEpisode) && IdAvailable(s, input.sourceId, KSource)
    requires input.id != input.sourceId || Blank(input.id)
    requires input.sourceId in s.sources ==> s.sources[input.sourceId].spaceId == "default"
    ensures var t := Step(s, d, IngestOp(input), now);
            var source := Source(input.sourceId, "default", "", "", "", map[], now);
            var episode := Episode(input.id, "default", input.kind, input.content, input.sourceId, input.groupId,
                                   input.observedAt, now, input.metadata);
            t == s.(sources := if input.sourceId in s.sources then s.sources else s.sources[input.sourceId := source],
                    episodes := s.episodes[input.id := episode])
  {
    DefaultSpace();
    hide Blank, SpaceOf, FirstNonEmpty;
    var source := Source(input.sourceId, "default", "", "", "", map[], now);
    assert ResolveSource(s, d, "default", input.sourceId, input.source, now) == Ok(source);
    assert AdmitSource(s, "default", input, source).Ok?;
    var sourced := AdmitSource(s, "default", input, source).value;
    assert IdAvailable(sourced, input.id, KEpisode) by {
      forall kind | Has(sourced, kind, input.id) && !Blank(input.id)
        ensures kind == KEpisode
      {
        assert Has(s, kind, input.id);
      }
    }
  }

  lemma DefaultSpace()
    ensures SpaceOf("") == "default" && FirstNonEmpty("", "default") == "default" && SpaceOf("default") == "default"
    ensures FirstNonEmpty("default", "default") == "default"
  {
    assert !Blank("default") by {
      assert "default"[0] == 'd' && !IsSpace('d');
    }
    assert Blank("");
  }

  // ----- the order of a map can show -----

  function NamedEpisode(id: string): EpisodeInput {
    EpisodeInput(id, "", "note", "text", " ", SourceInput("", "", "", "", "", map[]), "", 0, map[])
  }

  const BLANK := " "

  function ThreeEpisodes(): seq<Event> {
    [Event(IngestOp(NamedEpisode("a")), 10), Event(IngestOp(NamedEpisode("b")), 5), Event(IngestOp(NamedEpisode(BLANK)), 5)]
  }

  function PastRead(at: int): TemporalFilter { TemporalFilter(Some(at), None, None, None, None, None, true) }

  function StoredEpisode(id: string, now: int): Episode {
    Episode(id, "default", "note", "text", BLANK, "", 0, now, map[])
  }

  lemma BlankTexts()
    ensures Blank(BLANK) && !Blank("note") && !Blank("text") && !Blank("a") && !Blank("b")
  {
    assert "note"[0] == 'n' && "text"[0] == 't' && "a"[0] == 'a' && "b"[0] == 'b';
  }

  lemma ThreeIngested(d: Derivation)
    ensures var s := Run(Seeded(1), d, ThreeEpisodes());
            s.entities == map[] && s.facts == map[] &&
            s.sources == map[BLANK := Source(BLANK, "default", "", "", "", map[], 10)] &&
            s.episodes == map["a" := StoredEpisode("a", 10), "b" := StoredEpisode("b", 5), BLANK := StoredEpisode(BLANK, 5)]
  {
    hide Blank, Step;
    BlankTexts();
    var events := ThreeEpisodes();
    assert events[..3][..2] == events[..2] && events[..2][..1] == events[..1] && events[..1][..0] == [];
    assert |"a"| != |WATERMARK| && |"b"| != |WATERMARK| && |BLANK| != |WATERMARK|;
    assert "a"[0] != 'b' && "b"[0] == 'b' && BLANK[0] == ' ';
    var s0 := Seeded(1);
    Ingested(s0, d, NamedEpisode("a"), 10);
    var s1 := Step(s0, d, IngestOp(NamedEpisode("a")), 10);
    Ingested(s1, d, NamedEpisode("b"), 5);
    var s2 := Step(s1, d, IngestOp(NamedEpisode("b")), 5);
    Ingested(s2, d, NamedEpisode(BLANK), 5);
    var s3 := Step(s2, d, IngestOp(NamedEpisode(BLANK)), 5);
    assert Run(s0, d, events[..1]) == s1;
    assert Run(s0, d, events[..2]) == s2;
    assert Run(s0, d, events) == s3;
  }

  lemma EpisodeShown(s: State, req: NeighborhoodRequest, id: string)
    requires req.spaceId == "" && req.scope == ScopeFilter([], [], [], [], []) && req.temporal == PastRead(7)
    requires BLANK in s.sources && s.sources[BLANK].spaceId == "default"
    requires id in s.episodes && s.episodes[id] == StoredEpisode(id, 5)
    ensures EpisodeIn(CutAt(s, req.temporal), req, id)
    ensures id in CutAt(s, req.temporal).episodes && CutAt(s, req.temporal).episodes[id].episode == s.episodes[id]
  {
    hide FactsAt, SourcesAt, EntitiesAt, SpaceOf;
    DefaultSpace();
  }

  lemma SourceHidden(s: State, req: NeighborhoodRequest)
    requires s.entities == map[] && BLANK in s.sources && s.sources[BLANK].createdAt == 10 && req.temporal == PastRead(7)
    ensures BLANK !in EpisodeBase(s, req)
  {
    hide FactsAt, EpisodesAt, SpaceOf, EntityVersionAt;
  }

  lemma EpisodesTangle(s: State, req: NeighborhoodRequest)
    requires req.spaceId == "" && req.scope == ScopeFilter([], [], [], [], []) && req.temporal == PastRead(7)
    requires s.entities == map[] && s.sources == map[BLANK := Source(BLANK, "default", "", "", "", map[], 10)]
    requires s.episodes == map["a" := StoredEpisode("a", 10), "b" := StoredEpisode("b", 5), BLANK := StoredEpisode(BLANK, 5)]
    ensures Tangled(s, req)
  {
    hide FactsAt, SpaceOf, EntityVersionAt, EpisodeIn, EpisodeNodes, EpisodeBase;
    var e := GraphEdge("FROM_SOURCE", "b", BLANK);
    assert "b" != BLANK;
    var cut := CutAt(s, req.temporal);
    EpisodeShown(s, req, "b");
    EpisodeShown(s, req, BLANK);
    EpisodeNode(cut, req, BLANK);
    SourceHidden(s, req);
    assert EpisodeOwns(s, req)("b", e);
    assert Late(EpisodeOwns(s, req), EpisodeBase(s, req), EpisodeOwn(s, req), "b", e);
  }

  /** A source with a blank ID is created at 10, two later episodes are stamped 5 because
      the clock ran back, and one of them has the same blank ID. As of 7 the source is
      hidden, and whether the other episode is linked to it depends on the visiting order. */
  lemma OrderCanShow(d: Derivation)
    ensures var s := Run(Seeded(1), d, ThreeEpisodes());
            var req := NeighborhoodRequest("", ["b"], [], [], 1, 0, ScopeFilter([], [], [], [], []), PastRead(7));
            Inv(s) && OrderShows(s, req)
  {
    hide Inv, IngestEpisode, OrderShows, Tangled, CutAt;
    var s := Run(Seeded(1), d, ThreeEpisodes());
    var req := NeighborhoodRequest("", ["b"], [], [], 1, 0, ScopeFilter([], [], [], [], []), PastRead(7));
    SeededInv(1);
    RunKeepsInv(Seeded(1), d, ThreeEpisodes());
    InvIsKeyed(s);
    ThreeIngested(d);
    EpisodesTangle(s, req);
    OrderShowsIff(s, req);
  }

  // ----- a clock that runs back hides an update -----

  predicate PlainEntity(input: EntityInput) {
    input.id != "" && !Blank(input.typ) && !Blank(input.canonicalName) && input.spaceId == "" && input.namespace == "" &&
    input.stableKey == "" && input.aliases == [] && input.metadata == map[]
  }

  lemma Created(s: State, d: Derivation, input: EntityInput, now: int)
    requires PlainEntity(input) && input.id !in s.entities && IdAvailable(s, input.id, KEntity)
    ensures var entity := CreatedEntity(input.id, input, now);
            Step(s, d, UpsertOp(input), now) == PutEntity(s, input.id, entity, "assert")
    ensures Step(s, d, UpsertOp(input), now).entities == s.entities[input.id := CreatedEntity(input.id, input, now)]
  {
    hide Blank, IdAvailable, PutEntity, CreatedEntity;
    var rid := PutEntityAt(s, input.id, CreatedEntity(input.id, input, now), "assert");
  }

  lemma CreatedFields(id: string, input: EntityInput, now: int)
    requires PlainEntity(input)
    ensures var entity := CreatedEntity(id, input, now);
            entity == Entity(id, "default", "", input.typ, input.canonicalName, [], map[], now, now)
  {
    DefaultSpace();
    assert Blank("");
    hide Blank, SpaceOf;
    assert DedupeTrimmed([]) == [];
  }

  lemma Updated(s: State, d: Derivation, input: EntityInput, now: int)
    requires PlainEntity(input) && input.id in s.entities && IdAvailable(s, input.id, KEntity)
    requires s.entities[input.id].spaceId == "default" && s.entities[input.id].typ == input.typ
    ensures var entity := UpdatedEntity(s.entities[input.id], input, now);
            Step(s, d, UpsertOp(input), now) == PutEntity(s, input.id, entity, "update") &&
            Step(s, d, UpsertOp(input), now).entities == s.entities[input.id := entity]
  {
    DefaultSpace();
    hide Blank, IdAvailable, PutEntity, UpdatedEntity, SpaceOf;
    var rid := PutEntityAt(s, input.id, UpdatedEntity(s.entities[input.id], input, now), "update");
  }

  lemma UpdatedFields(entity: Entity, input: EntityInput, now: int)
    requires PlainEntity(input) && entity.metadata == map[] && entity.spaceId == "default" && entity.namespace == ""
    requires entity.typ == input.typ
    ensures var updated := UpdatedEntity(entity, input, now);
            updated.id == entity.id && updated.updatedAt == now && updated.spaceId == "default" && updated.namespace == "" &&
            updated.typ == input.typ && updated.metadata.Keys == {History}
  {
    DefaultSpace();
    assert Blank("");
    hide Blank, DedupeTrimmed, SnapshotEntry, SpaceOf;
  }

  function NamedEntity(id: string, name: string): EntityInput {
    EntityInput(id, "", "", "Person", name, "", [], map[])
  }

  function BackwardUpdate(): seq<Event> {
    [Event(UpsertOp(NamedEntity("e", "Ann")), 5), Event(UpsertOp(NamedEntity("e", "Bea")), 3)]
  }

  lemma PersonTexts()
    ensures !Blank("Person") && !Blank("Ann") && !Blank("Bea") && !Blank("e")
  {
    assert "Person"[0] == 'P' && "Ann"[0] == 'A' && "Bea"[0] == 'B' && "e"[0] == 'e';
  }

  lemma EntityIsOwned(s: State, id: string)
    requires IdsUnique(s) && id in s.entities
    ensures IdAvailable(s, id, KEntity)
  {
    assert Has(s, KEntity, id);
  }

  /** The log after one entity write. */
  lemma WriteLogged(s: State, id: string, entity: Entity, kind: string, t: State) returns (rid: string)
    requires t == PutEntity(s, id, entity, kind) && entity.updatedAt != UNSET
    ensures rid !in s.entityRevisions && rid in t.entityRevisions
    ensures t.entityRevisions == s.entityRevisions[rid := t.entityRevisions[rid]]
    ensures t.entityRevisions[rid].entityId == entity.id && t.entityRevisions[rid].txTime == entity.updatedAt
    ensures t.sources == s.sources && t.episodes == s.episodes && t.factRevisions == s.factRevisions
    ensures t.entities == s.entities[id := entity] && t.facts == s.facts
  {
    rid := PutEntityAt(s, id, entity, kind);
    hide PutEntity;
  }

  predicate SameEntity(first: EntityInput, second: EntityInput) {
    PlainEntity(first) && PlainEntity(second) && first.id == second.id && first.typ == second.typ
  }

  predicate SecondVersion(entity: Entity, input: EntityInput) {
    entity.id == input.id && entity.spaceId == "default" && entity.namespace == "" && entity.typ == input.typ &&
    entity.metadata.Keys == {History}
  }

  ghost function AfterTwo(s: State, d: Derivation, first: EntityInput, second: EntityInput, t1: int, t2: int): State {
    Step(Step(s, d, UpsertOp(first), t1), d, UpsertOp(second), t2)
  }

  /** Two writes of one new entity: the log gets one revision for each, and the entity
      carries the stamp of the second and a `_history`. */
  lemma TwoWrites(s: State, d: Derivation, first: EntityInput, second: EntityInput, t1: int, t2: int)
    returns (r1: string, r2: string, entity: Entity)
    requires Inv(s) && t1 > 0 && t2 > 0 && SameEntity(first, second)
    requires first.id !in s.entities && IdAvailable(s, first.id, KEntity)
    ensures var t := AfterTwo(s, d, first, second, t1, t2);
            t.entities == s.entities[first.id := entity] && entity.updatedAt == t2 && SecondVersion(entity, second) &&
            r1 in t.entityRevisions && r2 in t.entityRevisions && t.entityRevisions.Keys == s.entityRevisions.Keys + {r1, r2} &&
            t.entityRevisions[r1].entityId == first.id && t.entityRevisions[r1].txTime == t1 &&
            t.entityRevisions[r2].txTime == t2
    ensures var t := AfterTwo(s, d, first, second, t1, t2);
            t.sources == s.sources && t.episodes == s.episodes && t.factRevisions == s.factRevisions && t.facts == s.facts
    ensures var t := AfterTwo(s, d, first, second, t1, t2);
            forall rid :: rid in s.entityRevisions ==> t.entityRevisions[rid] == s.entityRevisions[rid]
  {
    hide Inv, Step, PutEntity, CreatedEntity, UpdatedEntity, Blank, IdAvailable, KeysMatch, RefsOk, IdsUnique, Grows, SpaceOf;
    var id := first.id;
    Created(s, d, first, t1);
    CreatedFields(id, first, t1);
    var mid := Step(s, d, UpsertOp(first), t1);
    StepKeepsInv(s, d, UpsertOp(first), t1);
    InvIsKeyed(mid);
    EntityIsOwned(mid, id);
    r1 := WriteLogged(s, id, CreatedEntity(id, first, t1), "assert", mid);
    Updated(mid, d, second, t2);
    entity := UpdatedEntity(mid.entities[id], second, t2);
    UpdatedFields(mid.entities[id], second, t2);
    r2 := WriteLogged(mid, id, entity, "update", AfterTwo(s, d, first, second, t1, t2));
  }

  lemma RunOfTwo(s: State, d: Derivation, first: EntityInput, second: EntityInput, t1: int, t2: int)
    ensures Run(s, d, [Event(UpsertOp(first), t1), Event(UpsertOp(second), t2)]) == AfterTwo(s, d, first, second, t1, t2)
  {
    hide Step;
    var events := [Event(UpsertOp(first), t1), Event(UpsertOp(second), t2)];
    assert events[..1] == [events[0]] && events[..1][..0] == [];
    assert Run(s, d, events[..1]) == Step(Run(s, d, []), d, events[0].op, events[0].now);
  }

  lemma AheadAfterUpdate(d: Derivation)
    ensures var s := Run(Seeded(1), d, BackwardUpdate()); TimeTravel.AllUpto(s, 5) && !TimeTravel.NoneAhead(s)
  {
    hide Inv, AfterTwo, Blank, IdAvailable, Run, Seed, Empty;
    PersonTexts();
    assert |"e"| != |WATERMARK|;
    FreshAvailable(Seeded(1), "e");
    SeededInv(1);
    var first, second := NamedEntity("e", "Ann"), NamedEntity("e", "Bea");
    RunOfTwo(Seeded(1), d, first, second, 5, 3);
    var r1, r2, entity := TwoWrites(Seeded(1), d, first, second, 5, 3);
  }

  lemma FreshAvailable(s: State, id: string)
    requires s == Seeded(1) && id != WATERMARK
    ensures IdAvailable(s, id, KEntity)
  {
  }

  /** An entity is created at 5 and renamed by a write stamped 3. At or after both stamps,
      a historical read does not show the live state. */
  lemma BackwardClockHidesUpdate(d: Derivation, at: int)
    requires at >= 5
    ensures var s := Run(Seeded(1), d, BackwardUpdate());
            Inv(s) && TimeTravel.AllUpto(s, at) &&
            CutAt(s, PastRead(at)) != TimeTravel.Plain(CutAt(s, PastRead(at).(asOf := None)))
  {
    hide Inv, Step, CutAt, TimeTravel.Plain, TimeTravel.NoneAhead, TimeTravel.AllUpto;
    var s := Run(Seeded(1), d, BackwardUpdate());
    SeededInv(1);
    RunKeepsInv(Seeded(1), d, BackwardUpdate());
    AheadAfterUpdate(d);
    TimeTravel.UptoLater(s, 5, at);
    var live := PastRead(at).(asOf := None);
    assert live.(asOf := Some(at)) == PastRead(at);
    TimeTravel.CutAtTheTopIff(s, at, live);
  }

  // ----- a merge that changes nothing -----

  ghost function AfterThree(d: Derivation): State {
    Step(AfterTwo(Seeded(1), d, NamedEntity("x", "Ann"), NamedEntity("x", "Bea"), 1, 2), d, UpsertOp(NamedEntity("t", "Ann")), 3)
  }

  lemma ThreeWritten(d: Derivation) returns (x: Entity)
    ensures var s := AfterThree(d);
            Inv(s) && Forest.ForestInv(s.entities) && SecondVersion(x, NamedEntity("x", "Bea")) &&
            s.entities == map["x" := x, "t" := Entity("t", "default", "", "Person", "Ann", [], map[], 3, 3)]
  {
    hide Inv, AfterTwo, Blank, IdAvailable, Step, Forest.ForestInv, Seed, Empty, Grows;
    PersonTexts();
    assert "x"[0] == 'x' && |"x"| != |WATERMARK| && |"t"| != |WATERMARK|;
    FreshAvailable(Seeded(1), "x");
    Forest.EmptyForest(1);
    var first, second, third := NamedEntity("x", "Ann"), NamedEntity("x", "Bea"), NamedEntity("t", "Ann");
    var r1, r2;
    r1, r2, x := TwoWrites(Seeded(1), d, first, second, 1, 2);
    var s := AfterTwo(Seeded(1), d, first, second, 1, 2);
    TwoKeep(Seeded(1), d, first, second, 1, 2);
    ShortIsUnknown(s, "t");
    UnknownIsAvailable(s, "t", KEntity);
    Created(s, d, third, 3);
    CreatedFields("t", third, 3);
    StepKeepsInv(s, d, UpsertOp(third), 3);
    Forest.PlainStepKeepsForest(s, d, UpsertOp(third), 3);
    assert "x" != "t";
  }

  lemma TwoKeep(s: State, d: Derivation, first: EntityInput, second: EntityInput, t1: int, t2: int)
    requires Inv(s) && Forest.ForestInv(s.entities) && t1 > 0 && t2 > 0 && PlainEntity(first) && PlainEntity(second)
    ensures Inv(AfterTwo(s, d, first, second, t1, t2)) && Forest.ForestInv(AfterTwo(s, d, first, second, t1, t2).entities)
    ensures AfterTwo(s, d, first, second, t1, t2).watermarks == s.watermarks
  {
    hide Inv, Step, Forest.ForestInv, Grows, Blank, IdsUnique, Keyed;
    AnyState.StepCarries(s, d, UpsertOp(first), t1);
    AnyState.StepCarries(Step(s, d, UpsertOp(first), t1), d, UpsertOp(second), t2);
    var mid := Step(s, d, UpsertOp(first), t1);
    StepKeepsInv(s, d, UpsertOp(first), t1);
    Forest.PlainStepKeepsForest(s, d, UpsertOp(first), t1);
    StepKeepsInv(mid, d, UpsertOp(second), t2);
    Forest.PlainStepKeepsForest(mid, d, UpsertOp(second), t2);
  }

  /** A short ID is not a generated one. */
  lemma ShortIsUnknown(s: State, id: string)
    requires Inv(s) && 1 <= |id| <= 2 && s.watermarks.Keys == {WATERMARK}
    requires id !in s.sources && id !in s.episodes && id !in s.entities && id !in s.facts
    ensures Unknown(s, id)
  {
    hide IdsUnique, KeysMatch, RefsOk, FactsCurrent, Lifecycle, EntitiesCurrent, RevisionOrder, Blank;
    assert |id| != |WATERMARK|;
    forall rid | rid in s.entityRevisions
      ensures |rid| > 2
    {
      assert EntityRevisionOk(s.entities, rid, s.entityRevisions[rid], s.sequence);
      assert |IdText(ENTITY_REVISION_PREFIX, RevisionOrder(rid))| > |ENTITY_REVISION_PREFIX|;
    }
    forall rid | rid in s.factRevisions
      ensures |rid| > 2
    {
      assert RevisionOk(s.facts, rid, s.factRevisions[rid], s.sequence);
      assert |IdText(FACT_REVISION_PREFIX, RevisionOrder(rid))| > |FACT_REVISION_PREFIX|;
    }
  }

  /** The merge is validated, and changes nothing: its source was updated once. */
  lemma MergeCanBeRefused(d: Derivation, lib: Merge.Library, now: int)
    requires now > 0
    ensures var s := AfterThree(d);
            var input := Merge.MergeInput("t", ["x"], "", "");
            Inv(s) && Merge.MergePlan(s, lib, input).Ok? && Merge.MergeStep(s, d, lib, input, now) == s
  {
    hide Inv, AfterThree, Mutation, Merge.MergePlan, Forest.Shallow, Blank;
    var s := AfterThree(d);
    var input := Merge.MergeInput("t", ["x"], "", "");
    var x := ThreeWritten(d);
    MergeIsValid(s, lib, x);
    Forest.MergeAppliesIff(s, d, lib, input, now);
    assert History in s.entities["x"].metadata;
    assert !Forest.Unreserved(s.entities[input.sourceIds[0]]);
  }

  lemma MergeIsValid(s: State, lib: Merge.Library, x: Entity)
    requires SecondVersion(x, NamedEntity("x", "Bea"))
    requires s.entities == map["x" := x, "t" := Entity("t", "default", "", "Person", "Ann", [], map[], 3, 3)]
    ensures Merge.MergePlan(s, lib, Merge.MergeInput("t", ["x"], "", "")).Ok?
  {
    hide Merge.NamesOverlap, Merge.NormalizeKey, Merge.MergeBatch, Blank;
    var target := s.entities["t"];
    assert "x" != "t";
    assert Merge.AdmitMergeSource(s, lib, target, "x") == Ok(x);
    var ids := ["x"];
    assert ids[..|ids| - 1] == [] && Merge.MergeSources(s, lib, target, []) == Ok([]);
    assert Merge.MergeSources(s, lib, target, ids) == Ok([] + [x]);
  }

  // ----- a supersession that breaks its slot -----

  lemma TrimPlain(s: string)
    requires s != "" && !IsSpace(s[0]) && !IsSpace(s[|s| - 1])
    ensures Trim(s) == s
  {
  }

  predicate PlainFact(input: FactInput) {
    input.spaceId == "" && !Blank(input.predicate_) && !Blank(input.subjectId) && input.objectId == "" &&
    input.support == ["p"] && input.status == None && input.metadata == map[] && input.id != "" &&
    ValidFactInterval(input.validFrom, input.validTo)
  }

  ghost predicate Stage(s: State) {
    "s" in s.entities && s.entities["s"].spaceId == "default" && "p" in s.episodes && s.episodes["p"].spaceId == "default"
  }

  lemma Admitted(s: State, input: FactInput)
    requires PlainFact(input) && input.subjectId == "s" && Stage(s)
    requires input.cardinality == "" ||
             (input.cardinality == "one" &&
              SlotOccupants(s, "default", input.subjectId, input.predicate_, input.validFrom, input.validTo) == {})
    ensures AdmitFact(s, "default", input).Ok?
  {
    TrimPlain("p");
    TrimPlain("one");
    assert Trim("") == "";
    hide Trim, Blank, SlotOccupants;
    assert DedupeTrimmed(["p"]) == ["p"] by {
      assert ["p"][1..] == [] && ["p"][0] == "p";
      assert DedupeTrimmedFrom([], {"p"}) == [];
    }
    assert forall id :: id in ["p"] ==> id == "p";
  }

  /** An admitted assertion with an unknown ID of its own takes effect. */
  lemma Asserted(s: State, d: Derivation, input: FactInput, now: int)
    requires PlainFact(input) && AdmitFact(s, "default", input).Ok? && Unknown(s, input.id)
    ensures var fact := AssertedFact(input.id, "default", input, now);
            AssertFact(s, "default", input, now) == Ok(FactDone(PutFact(s, input.id, fact, "assert"), fact))
    ensures var t := Step(s, d, AssertOp(input), now);
            t.facts == s.facts[input.id := AssertedFact(input.id, "default", input, now)] &&
            t.entities == s.entities && t.episodes == s.episodes && t.sources == s.sources && t.watermarks == s.watermarks
  {
    DefaultSpace();
    hide AdmitFact, PutFact, SpaceOf, Blank, AssertedFact;
    UnknownIsAvailable(s, input.id, KFact);
    assert !Has(s, KFact, input.id);
    var rid := PutFactAt(s, input.id, AssertedFact(input.id, "default", input, now), "assert");
  }

  function Claim(id: string, from: int, to: int, cardinality: string): FactInput {
    FactInput(id, "", "lives", "s", "", "", 1.0, None, from, to, 0, ["p"], cardinality, map[])
  }

  ghost function Staged(d: Derivation): State {
    Step(Step(Seeded(1), d, IngestOp(PlainNote()), 1), d, UpsertOp(NamedEntity("s", "Ann")), 2)
  }

  function PlainNote(): EpisodeInput {
    EpisodeInput("p", "", "note", "text", "q", SourceInput("", "", "", "", "", map[]), "", 0, map[])
  }

  lemma StagedIs(d: Derivation)
    ensures var s := Staged(d);
            Inv(s) && Stage(s) && s.facts == map[] && s.watermarks.Keys == {WATERMARK} &&
            s.sources.Keys == {"q"} && s.episodes.Keys == {"p"} && s.entities.Keys == {"s"}
  {
    hide Inv, Step, Blank, Seed, Empty, Grows, PutEntity;
    PersonTexts();
    BlankTexts();
    SeededInv(1);
    var s0 := Seeded(1);
    assert |"p"| != |WATERMARK| && |"q"| != |WATERMARK| && "p"[0] != 'q' && "q"[0] == 'q' && "s"[0] == 's';
    Ingested(s0, d, PlainNote(), 1);
    var s1 := Step(s0, d, IngestOp(PlainNote()), 1);
    StepKeepsInv(s0, d, IngestOp(PlainNote()), 1);
    ShortIsUnknown(s1, "s");
    UnknownIsAvailable(s1, "s", KEntity);
    Created(s1, d, NamedEntity("s", "Ann"), 2);
    CreatedFields("s", NamedEntity("s", "Ann"), 2);
    StepKeepsInv(s1, d, UpsertOp(NamedEntity("s", "Ann")), 2);
    var rid := PutEntityAt(s1, "s", CreatedEntity("s", NamedEntity("s", "Ann"), 2), "assert");
  }

  ghost function TwoClaims(d: Derivation): State {
    Step(Step(Staged(d), d, AssertOp(Claim("f", 1, 10, "one")), 3), d, AssertOp(Claim("g", 10, 20, "one")), 4)
  }

  const SLOT := Slots.Slot("default", "s", "lives")

  lemma ClaimIsPlain(id: string, from: int, to: int, cardinality: string)
    requires id != "" && from < to
    ensures PlainFact(Claim(id, from, to, cardinality))
  {
    assert "lives"[0] == 'l' && "s"[0] == 's';
    assert !Blank("lives") && !Blank("s");
  }

  lemma Claimed(s: State, d: Derivation, id: string, from: int, to: int, now: int)
    requires Inv(s) && Stage(s) && s.watermarks.Keys == {WATERMARK} && now > 0
    requires 1 <= |id| <= 2 && from < to && id !in s.sources && id !in s.episodes && id !in s.entities && id !in s.facts
    requires SlotOccupants(s, "default", "s", "lives", from, to) == {}
    ensures var t := Step(s, d, AssertOp(Claim(id, from, to, "one")), now);
            Inv(t) && Stage(t) && t.watermarks == s.watermarks && t.sources == s.sources && t.episodes == s.episodes &&
            t.entities == s.entities && t.facts == s.facts[id := AssertedFact(id, "default", Claim(id, from, to, "one"), now)]
  {
    hide Inv, Step, SlotOccupants, Grows, AdmitFact, PlainFact, AssertedFact;
    ClaimIsPlain(id, from, to, "one");
    Admitted(s, Claim(id, from, to, "one"));
    ShortIsUnknown(s, id);
    Asserted(s, d, Claim(id, from, to, "one"), now);
    StepKeepsInv(s, d, AssertOp(Claim(id, from, to, "one")), now);
  }

  lemma TwoClaimed(d: Derivation)
    ensures var s := TwoClaims(d);
            Inv(s) && Stage(s) && s.watermarks.Keys == {WATERMARK} && s.sources.Keys == {"q"} && s.episodes.Keys == {"p"} &&
            s.entities.Keys == {"s"} &&
            s.facts == map["f" := AssertedFact("f", "default", Claim("f", 1, 10, "one"), 3),
                           "g" := AssertedFact("g", "default", Claim("g", 10, 20, "one"), 4)]
  {
    hide Inv, Step, Staged, Distinct;
    StagedIs(d);
    assert "f"[0] == 'f' && "g"[0] == 'g' && "q"[0] == 'q' && "p"[0] == 'p' && "s"[0] == 's';
    Claimed(Staged(d), d, "f", 1, 10, 3);
    var s := Step(Staged(d), d, AssertOp(Claim("f", 1, 10, "one")), 3);
    assert SlotOccupants(s, "default", "s", "lives", 10, 20) == {};
    Claimed(s, d, "g", 10, 20, 4);
  }

  /** Two claims hold one slot in turn; the first is superseded by one that covers both
      spans. Supersession does not ask the slot guard, so the slot then has two holders. */
  lemma SupersedeCanCollide(d: Derivation)
    ensures var s := TwoClaims(d);
            var r := SupersedeFact(s, "f", Claim("h", 1, 20, ""), "", 5);
            Inv(s) && Slots.Exclusive(s.facts, SLOT) && r.Ok? && !Slots.Exclusive(r.value.state.facts, SLOT)
  {
    hide Inv, TwoClaims, SupersedeFact, Slots.Exclusive, Distinct, PlainFact;
    var s := TwoClaims(d);
    var input := Claim("h", 1, 20, "");
    TwoClaimed(d);
    TwoAreExclusive(s.facts);
    Replaceable(s, "f", input);
    assert Slots.Collides(s.facts, "f", SLOT, input) by {
      assert "g" != "f" && Slots.Holds(s.facts["g"], SLOT);
    }
    Slots.SupersedeExclusiveIff(s, "f", input, "", 5, SLOT);
  }

  lemma TwoAreExclusive(facts: map<string, Fact>)
    requires facts == map["f" := AssertedFact("f", "default", Claim("f", 1, 10, "one"), 3),
                          "g" := AssertedFact("g", "default", Claim("g", 10, 20, "one"), 4)]
    ensures Slots.Exclusive(facts, SLOT)
  {
    hide Distinct;
  }

  lemma Replaceable(s: State, id: string, input: FactInput)
    requires Inv(s) && Stage(s) && s.watermarks.Keys == {WATERMARK} && input == Claim("h", 1, 20, "")
    requires id in s.facts && s.facts[id].status == Active && s.facts[id].spaceId == "default" &&
             s.facts[id].subjectId == "s" && s.facts[id].predicate_ == "lives"
    requires "h" !in s.sources && "h" !in s.episodes && "h" !in s.entities && "h" !in s.facts
    ensures var r := SupersedeFact(s, id, input, "", 5); r.Ok? && r.value.newId == "h"
  {
    hide Inv, PutFact, AdmitFact, PlainFact, AssertFact, SlotOccupants, Blank, StrictlyAfter;
    ClaimIsPlain("h", 1, 20, "");
    assert Trim("") == "";
    assert Additive(input) == input;
    Admitted(s, input);
    ShortIsUnknown(s, "h");
    Asserted(s, Derivation(_ => "", _ => "", _ => ""), input, StrictlyAfter(5, s.facts[id].updatedAt));
  }

  // ----- a supersession that Lattice cannot save -----

  const PADDED := " f"

  ghost function PaddedClaim(d: Derivation): State {
    Step(Staged(d), d, AssertOp(Claim(PADDED, 1, 10, "one")), 3)
  }

  /** The ID of the claim starts with a space. Its supersession is a valid mutation, but
      the state it leads to calls for an edge to a fact under the trimmed ID. */
  lemma PaddedIdDangles(d: Derivation)
    ensures var s := PaddedClaim(d);
            var r := SupersedeFact(s, PADDED, Claim("h", 1, 20, ""), "", 5);
            Inv(s) && r.Ok? && Lattice.Dangles(s, r.value.state)
  {
    hide Inv, Step, Staged, Distinct, SupersedeFact, Lattice.Dangles, Lattice.Lands, Lattice.Stranded, Grows, SupersedeEffect;
    StagedIs(d);
    assert PADDED[0] == ' ' && "q"[0] == 'q' && "p"[0] == 'p' && "s"[0] == 's' && "h"[0] == 'h';
    Claimed(Staged(d), d, PADDED, 1, 10, 3);
    var s := PaddedClaim(d);
    var input := Claim("h", 1, 20, "");
    Replaceable(s, PADDED, input);
    SupersedeKeepsInv(s, PADDED, input, "", 5);
    var done := SupersedeFact(s, PADDED, input, "", 5).value;
    NotFindable(s.facts);
    Lattice.SupersedeDanglesIff(s, s, PADDED, input, "", 5);
  }

  lemma NotFindable(facts: map<string, Fact>)
    requires facts.Keys == {PADDED}
    ensures !Lattice.Lands(facts, "h", PADDED)
  {
    TrimFront("f");
    assert PADDED == " " + "f" && PADDED[1] == 'f' && !IsSpace('f');
    assert "f" != "h" && |"f"| != |PADDED|;
  }

  lemma TrimFront(s: string)
    requires s != "" && !IsSpace(s[0]) && !IsSpace(s[|s| - 1])
    ensures Trim(" " + s) == s
  {
    assert (" " + s)[1..] == s && (" " + s)[0] == ' ';
    assert TrimLeft(" " + s) == TrimLeft(s) == s;
  }
}
