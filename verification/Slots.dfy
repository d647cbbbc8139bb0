/** Single-value slots: when every assertion into a slot asks for cardinality one
    and replacements stay inside what they replace, no two active facts of the
    slot are ever valid at the same domain instant. */
module Slots {
  import opened Wrappers
  import opened Text
  import opened Identity
  import opened Records
  import opened EngineSpec
  import opened Invariants
  import opened Preservation

  datatype Slot = Slot(spaceId: string, subjectId: string, predicate_: string)

  predicate Holds(fact: Fact, slot: Slot) {
    HoldsSlot(fact, slot.spaceId, slot.subjectId, slot.predicate_)
  }

  predicate Overlap(a: Fact, b: Fact) {
    FactValidityOverlaps(a.validFrom, a.validTo, b.validFrom, b.validTo)
  }

  /** No two holders of the slot have overlapping validity. */
  ghost predicate Exclusive(facts: map<string, Fact>, slot: Slot) {
    forall a, b :: a in facts && b in facts && a != b && Holds(facts[a], slot) && Holds(facts[b], slot) ==>
      !Overlap(facts[a], facts[b])
  }

  /** At most one holder of the slot is valid at the domain instant. */
  ghost predicate AtMostOneValid(facts: map<string, Fact>, slot: Slot, at: int) {
    forall a, b :: a in facts && b in facts && ValidHolder(facts[a], slot, at) && ValidHolder(facts[b], slot, at) ==> a == b
  }

  predicate ValidHolder(fact: Fact, slot: Slot, at: int) {
    Holds(fact, slot) && FactDomainValidAt(fact.validFrom, fact.validTo, at)
  }

  lemma SharedInstant(aFrom: int, aTo: int, bFrom: int, bTo: int) returns (at: int)
    requires ValidFactInterval(aFrom, aTo) && ValidFactInterval(bFrom, bTo)
    requires FactValidityOverlaps(aFrom, aTo, bFrom, bTo)
    ensures FactDomainValidAt(aFrom, aTo, at) && FactDomainValidAt(bFrom, bTo, at)
  {
    OverlapIsSharedInstant(aFrom, aTo, bFrom, bTo);
    at :| FactDomainValidAt(aFrom, aTo, at) && FactDomainValidAt(bFrom, bTo, at);
  }

  lemma ExclusiveMeansAtMostOneValid(facts: map<string, Fact>, slot: Slot)
    requires forall id :: id in facts ==> ValidFactInterval(facts[id].validFrom, facts[id].validTo)
    ensures Exclusive(facts, slot) <==> forall at :: AtMostOneValid(facts, slot, at)
  {
    if Exclusive(facts, slot) {
      forall at, a, b | a in facts && b in facts && ValidHolder(facts[a], slot, at) && ValidHolder(facts[b], slot, at)
        ensures a == b
      {
        OverlapIsSharedInstant(facts[a].validFrom, facts[a].validTo, facts[b].validFrom, facts[b].validTo);
      }
    } else {
      var a, b :| a in facts && b in facts && a != b && Holds(facts[a], slot) && Holds(facts[b], slot) &&
        Overlap(facts[a], facts[b]);
      var at := SharedInstant(facts[a].validFrom, facts[a].validTo, facts[b].validFrom, facts[b].validTo);
      assert !AtMostOneValid(facts, slot, at);
    }
  }

  // ----- single steps -----

  lemma AssertExclusive(s: State, spaceId: string, input: FactInput, now: int, slot: Slot)
    requires Inv(s) && now > 0 && AssertFact(s, spaceId, input, now).Ok?
    requires Exclusive(s.facts, slot)
    requires Slot(spaceId, input.subjectId, input.predicate_) == slot ==> CardinalityOf(input) == "one"
    ensures Exclusive(AssertFact(s, spaceId, input, now).value.state.facts, slot)
  {
    hide Inv, AssertFact, CardinalityOf, Distinct;
    AssertKeepsInv(s, spaceId, input, now);
    AssertedMetadata(s, spaceId, input, now);
    var fact := AssertFact(s, spaceId, input, now).value.fact;
    if Holds(fact, slot) {
      forall a | a in s.facts && Holds(s.facts[a], slot)
        ensures !Overlap(s.facts[a], fact)
      {
        assert a !in SlotOccupants(s, spaceId, input.subjectId, input.predicate_, input.validFrom, input.validTo);
      }
    }
  }

  lemma RetractExclusive(s: State, id: string, reason: string, now: int, slot: Slot)
    requires Exclusive(s.facts, slot) && RetractFact(s, id, reason, now).Ok?
    ensures Exclusive(RetractFact(s, id, reason, now).value.facts, slot)
  {
    hide NextFree, AllIds;
  }

  /** The other holders that the replacement would collide with. */
  ghost predicate Collides(facts: map<string, Fact>, id: string, slot: Slot, input: FactInput) {
    exists other :: other in facts && other != id && Holds(facts[other], slot) &&
      FactValidityOverlaps(facts[other].validFrom, facts[other].validTo, input.validFrom, input.validTo)
  }

  /** Supersession is exempt from the slot guard. It keeps the slot exclusive exactly
      when the replacement overlaps no holder other than the fact it retires. */
  lemma SupersedeExclusiveIff(s: State, id: string, input: FactInput, reason: string, now: int, slot: Slot)
    requires Inv(s) && now > 0 && SupersedeFact(s, id, input, reason, now).Ok?
    requires Exclusive(s.facts, slot) && Holds(s.facts[id], slot)
    ensures Exclusive(SupersedeFact(s, id, input, reason, now).value.state.facts, slot) <==>
            !Collides(s.facts, id, slot, input)
  {
    hide Inv, SupersedeFact, SupersedeEffect, Collides, Exclusive, Holds;
    SupersedeMatchesSlot(s, id, input, reason, now);
    SupersedeKeepsInv(s, id, input, reason, now);
    forall x | x in s.facts
      ensures s.facts[x].id == x
    {
      IntervalValid(s, x);
    }
    var done := SupersedeFact(s, id, input, reason, now).value;
    SupersedeSplit(s.facts, done.state.facts, id, done.newId, input, reason, now, slot);
  }

  lemma SupersedeMatchesSlot(s: State, id: string, input: FactInput, reason: string, now: int)
    requires SupersedeFact(s, id, input, reason, now).Ok?
    ensures id in s.facts && input.subjectId == s.facts[id].subjectId && input.predicate_ == s.facts[id].predicate_
  {
    hide AssertFact, PutFact, Trim, Blank;
  }

  /** Which facts hold the slot after a supersession: the old holders but the target,
      and the replacement if the target held it. */
  lemma SupersedeHolders(facts: map<string, Fact>, facts': map<string, Fact>, id: string, newId: string,
                         input: FactInput, reason: string, now: int, slot: Slot)
    requires SupersedeEffect(facts, facts', id, newId, input, reason, now)
    requires input.subjectId == facts[id].subjectId && input.predicate_ == facts[id].predicate_
    requires forall x :: x in facts ==> facts[x].id == x
    ensures facts'.Keys == facts.Keys + {newId} && id != newId
    ensures forall x :: x in facts && x != id ==> facts'[x] == facts[x]
    ensures !Holds(facts'[id], slot)
    ensures Holds(facts'[newId], slot) <==> Holds(facts[id], slot)
    ensures facts'[newId].validFrom == input.validFrom && facts'[newId].validTo == input.validTo
  {
    hide Trim, Distinct;
  }

  lemma SupersedeSplit(facts: map<string, Fact>, facts': map<string, Fact>, id: string, newId: string,
                       input: FactInput, reason: string, now: int, slot: Slot)
    requires SupersedeEffect(facts, facts', id, newId, input, reason, now)
    requires input.subjectId == facts[id].subjectId && input.predicate_ == facts[id].predicate_
    requires forall x :: x in facts ==> facts[x].id == x
    requires Exclusive(facts, slot)
    ensures Holds(facts[id], slot) ==> (Exclusive(facts', slot) <==> !Collides(facts, id, slot, input))
    ensures !Holds(facts[id], slot) ==> Exclusive(facts', slot)
  {
    SupersedeHolders(facts, facts', id, newId, input, reason, now, slot);
    hide SupersedeEffect, HoldsSlot;
    if Holds(facts[id], slot) && Collides(facts, id, slot, input) {
      var other :| other in facts && other != id && Holds(facts[other], slot) &&
        FactValidityOverlaps(facts[other].validFrom, facts[other].validTo, input.validFrom, input.validTo);
      assert Overlap(facts'[other], facts'[newId]);
    }
  }

  /** Validity of the replacement inside the validity of its target. */
  ghost predicate Inside(input: FactInput, target: Fact) {
    forall at :: FactDomainValidAt(input.validFrom, input.validTo, at) ==>
      FactDomainValidAt(target.validFrom, target.validTo, at)
  }

  lemma InsideDoesNotCollide(s: State, id: string, input: FactInput, slot: Slot)
    requires Inv(s) && id in s.facts && Holds(s.facts[id], slot)
    requires ValidFactInterval(input.validFrom, input.validTo) && Inside(input, s.facts[id])
    ensures Exclusive(s.facts, slot) ==> !Collides(s.facts, id, slot, input)
  {
    hide Inv;
    if Collides(s.facts, id, slot, input) {
      var other :| other in s.facts && other != id && Holds(s.facts[other], slot) &&
        FactValidityOverlaps(s.facts[other].validFrom, s.facts[other].validTo, input.validFrom, input.validTo);
      IntervalValid(s, other);
      IntervalValid(s, id);
      var a, t := s.facts[other], s.facts[id];
      var at := SharedInstant(a.validFrom, a.validTo, input.validFrom, input.validTo);
      assert FactDomainValidAt(t.validFrom, t.validTo, at);
      OverlapIsSharedInstant(a.validFrom, a.validTo, t.validFrom, t.validTo);
      assert Overlap(a, t);
    }
  }

  lemma IntervalValid(s: State, id: string)
    requires Inv(s) && id in s.facts
    ensures ValidFactInterval(s.facts[id].validFrom, s.facts[id].validTo) && s.facts[id].id == id
  {
    hide Core, StampsOk, PhasesOk, Linked;
    assert LifeOk(s.facts, s.facts[id]);
  }

  // ----- runs -----

  ghost predicate DisciplinedFact(spaceId: string, input: FactInput, slot: Slot) {
    Slot(spaceId, input.subjectId, input.predicate_) == slot ==> CardinalityOf(input) == "one"
  }

  /** The facts a batch asserts, once its references are resolved. */
  ghost function BatchPrelude(s: State, d: Derivation, input: BatchInput, now: int): Result<BatchDone> {
    var b1 :- BatchEpisodes(BatchDone(s, [], [], [], map[]), d, input.episodes, now);
    BatchEntities(b1, d, input.entities, now)
  }

  /** Every assertion into the slot asks for cardinality one, and every replacement of
      a holder stays inside it. */
  ghost predicate Disciplined(s: State, d: Derivation, op: Op, now: int, slot: Slot) {
    match op
    case AssertOp(input) => DisciplinedFact(SpaceOf(input.spaceId), input, slot)
    case BatchOp(input) =>
      var prelude := BatchPrelude(s, d, input, now);
      prelude.Ok? ==> forall i :: 0 <= i < |input.facts| ==>
        var fact := Rewritten(prelude.value.rewrites, input.facts[i]);
        DisciplinedFact(SpaceOf(fact.spaceId), fact, slot)
    case SupersedeOp(target, input, _) =>
      target in s.facts && Holds(s.facts[target], slot) ==> Inside(input, s.facts[target])
    case _ => true
  }

  lemma IngestKeepsFacts(s: State, d: Derivation, input: EpisodeInput, now: int)
    requires IngestEpisode(s, d, input, now).Ok?
    ensures IngestEpisode(s, d, input, now).value.state.facts == s.facts
  {
    hide AdmitSource, AdmitEpisode, ResolveSource, Blank;
    var spaceId := SpaceOf(input.spaceId);
    var source := ResolveSource(s, d, spaceId, input.sourceId, input.source, now).value;
    SourceKeepsFacts(s, spaceId, input, source);
    EpisodeKeepsFacts(AdmitSource(s, spaceId, input, source).value, spaceId, input, source.id, now);
  }

  lemma SourceKeepsFacts(s: State, spaceId: string, input: EpisodeInput, source: Source)
    requires AdmitSource(s, spaceId, input, source).Ok?
    ensures AdmitSource(s, spaceId, input, source).value.facts == s.facts
  {
    hide IdAvailable, SourceMatches;
  }

  lemma EpisodeKeepsFacts(s: State, spaceId: string, input: EpisodeInput, sourceId: string, now: int)
    requires AdmitEpisode(s, spaceId, input, sourceId, now).Ok?
    ensures AdmitEpisode(s, spaceId, input, sourceId, now).value.state.facts == s.facts
  {
    hide IdAvailable, SameEpisode, NextFree, AllIds, IdText;
  }

  lemma UpsertKeepsFacts(s: State, d: Derivation, input: EntityInput, now: int)
    requires UpsertEntity(s, d, input, now).Ok?
    ensures UpsertEntity(s, d, input, now).value.state.facts == s.facts
  {
    hide NextFree, AllIds, EntityTarget, Blank, UpdatedEntity, CreatedEntity, UpdateAllowed;
  }

  lemma {:induction false} EpisodesKeepFacts(b: BatchDone, d: Derivation, inputs: seq<EpisodeInput>, now: int)
    requires BatchEpisodes(b, d, inputs, now).Ok?
    ensures BatchEpisodes(b, d, inputs, now).value.state.facts == b.state.facts
  {
    hide IngestEpisode;
    if inputs != [] {
      EpisodesKeepFacts(b, d, inputs[..|inputs| - 1], now);
      IngestKeepsFacts(BatchEpisodes(b, d, inputs[..|inputs| - 1], now).value.state, d, inputs[|inputs| - 1], now);
    }
  }

  lemma {:induction false} EntitiesKeepFacts(b: BatchDone, d: Derivation, inputs: seq<EntityInput>, now: int)
    requires BatchEntities(b, d, inputs, now).Ok?
    ensures BatchEntities(b, d, inputs, now).value.state.facts == b.state.facts
  {
    hide UpsertEntity, ReferenceOf;
    if inputs != [] {
      EntitiesKeepFacts(b, d, inputs[..|inputs| - 1], now);
      UpsertKeepsFacts(BatchEntities(b, d, inputs[..|inputs| - 1], now).value.state, d, inputs[|inputs| - 1], now);
    }
  }

  lemma {:induction false} FactsStayExclusive(b: BatchDone, inputs: seq<FactInput>, now: int, slot: Slot)
    requires Inv(b.state) && now > 0 && BatchFacts(b, inputs, now).Ok? && Exclusive(b.state.facts, slot)
    requires forall i :: 0 <= i < |inputs| ==>
      var fact := Rewritten(b.rewrites, inputs[i]);
      DisciplinedFact(SpaceOf(fact.spaceId), fact, slot)
    ensures Exclusive(BatchFacts(b, inputs, now).value.state.facts, slot)
    ensures BatchFacts(b, inputs, now).value.rewrites == b.rewrites
  {
    hide Inv, Exclusive, AssertFact, Rewritten, SpaceOf, CardinalityOf;
    if inputs != [] {
      var n := |inputs| - 1;
      FactsStayExclusive(b, inputs[..n], now, slot);
      BatchFactsKeepInv(b, inputs[..n], now);
      var front := BatchFacts(b, inputs[..n], now).value;
      var fact := Rewritten(b.rewrites, inputs[n]);
      assert DisciplinedFact(SpaceOf(fact.spaceId), fact, slot);
      AssertExclusive(front.state, SpaceOf(fact.spaceId), fact, now, slot);
    }
  }

  lemma BatchExclusive(s: State, d: Derivation, input: BatchInput, now: int, slot: Slot)
    requires Inv(s) && now > 0 && IngestBatch(s, d, input, now).Ok? && Exclusive(s.facts, slot)
    requires Disciplined(s, d, BatchOp(input), now, slot)
    ensures Exclusive(IngestBatch(s, d, input, now).value.state.facts, slot)
  {
    hide Inv, Exclusive, BatchEpisodes, BatchEntities, BatchFacts, DisciplinedFact, Rewritten, SpaceOf;
    var b0 := BatchDone(s, [], [], [], map[]);
    var b1 := BatchEpisodes(b0, d, input.episodes, now).value;
    var b2 := BatchEntities(b1, d, input.entities, now).value;
    BatchEpisodesKeepInv(b0, d, input.episodes, now);
    BatchEntitiesKeepInv(b1, d, input.entities, now);
    EpisodesKeepFacts(b0, d, input.episodes, now);
    EntitiesKeepFacts(b1, d, input.entities, now);
    assert BatchPrelude(s, d, input, now) == Ok(b2);
    FactsStayExclusive(b2, input.facts, now, slot);
  }

  lemma SupersedeExclusive(s: State, d: Derivation, id: string, input: FactInput, reason: string, now: int, slot: Slot)
    requires Inv(s) && now > 0 && SupersedeFact(s, id, input, reason, now).Ok? && Exclusive(s.facts, slot)
    requires Disciplined(s, d, SupersedeOp(id, input, reason), now, slot)
    ensures Exclusive(SupersedeFact(s, id, input, reason, now).value.state.facts, slot)
  {
    hide Inv, Exclusive, SupersedeFact, Collides, SupersedeEffect, Inside, Holds;
    SupersedeMatchesSlot(s, id, input, reason, now);
    ReplacementInterval(s, id, input, reason, now);
    SupersedeKeepsInv(s, id, input, reason, now);
    forall x | x in s.facts
      ensures s.facts[x].id == x
    {
      IntervalValid(s, x);
    }
    var done := SupersedeFact(s, id, input, reason, now).value;
    SupersedeSplit(s.facts, done.state.facts, id, done.newId, input, reason, now, slot);
    if Holds(s.facts[id], slot) {
      InsideDoesNotCollide(s, id, input, slot);
    }
  }

  lemma ReplacementInterval(s: State, id: string, input: FactInput, reason: string, now: int)
    requires SupersedeFact(s, id, input, reason, now).Ok?
    ensures ValidFactInterval(input.validFrom, input.validTo)
  {
    hide AssertFact, PutFact, Trim, Blank, ValidFactInterval;
    AssertedMetadata(s, s.facts[id].spaceId, Additive(input), StrictlyAfter(now, s.facts[id].updatedAt));
  }

  lemma DisciplinedStep(s: State, d: Derivation, op: Op, now: int, slot: Slot)
    requires Inv(s) && now > 0 && Exclusive(s.facts, slot) && Disciplined(s, d, op, now, slot)
    ensures Exclusive(Step(s, d, op, now).facts, slot)
  {
    hide Inv, Exclusive, IngestEpisode, IngestBatch, UpsertEntity, AssertFact, SupersedeFact, RetractFact, Inside;
    if Mutation(s, d, op, now).Ok? {
      match op
      case IngestOp(input) => IngestKeepsFacts(s, d, input, now);
      case BatchOp(input) => BatchExclusive(s, d, input, now, slot);
      case UpsertOp(input) => UpsertKeepsFacts(s, d, input, now);
      case AssertOp(input) => AssertExclusive(s, SpaceOf(input.spaceId), input, now, slot);
      case SupersedeOp(target, input, reason) => SupersedeExclusive(s, d, target, input, reason, now, slot);
      case RetractOp(target, reason) => RetractExclusive(s, target, reason, now, slot);
    }
  }

  ghost predicate DisciplinedRun(s: State, d: Derivation, events: seq<Event>, slot: Slot) {
    forall i :: 0 <= i < |events| ==>
      Disciplined(Run(s, d, events[..i]), d, events[i].op, events[i].now, slot)
  }

  lemma {:induction false} DisciplinedRunIsExclusive(s: State, d: Derivation, events: seq<Event>, slot: Slot)
    requires Inv(s) && ClockOk(events) && Exclusive(s.facts, slot) && DisciplinedRun(s, d, events, slot)
    ensures Exclusive(Run(s, d, events).facts, slot)
  {
    hide Inv, Exclusive, Step, Disciplined;
    if events != [] {
      var n := |events| - 1;
      var front := events[..n];
      forall i | 0 <= i < n
        ensures Disciplined(Run(s, d, front[..i]), d, front[i].op, front[i].now, slot)
      {
        assert front[..i] == events[..i];
      }
      DisciplinedRunIsExclusive(s, d, front, slot);
      RunKeepsInv(s, d, front);
      DisciplinedStep(Run(s, d, front), d, events[n].op, events[n].now, slot);
    }
  }

  /** Over any disciplined run from an empty database, with any clock, at most one
      active fact of the slot is valid at each domain instant. */
  lemma SlotExclusiveOverRuns(d: Derivation, seededAt: int, events: seq<Event>, slot: Slot, at: int)
    requires ClockOk(events) && DisciplinedRun(Seeded(seededAt), d, events, slot)
    ensures AtMostOneValid(Run(Seeded(seededAt), d, events).facts, slot, at)
  {
    SeededInv(seededAt);
    hide Inv, Step, Disciplined, AtMostOneValid;
    DisciplinedRunIsExclusive(Seeded(seededAt), d, events, slot);
    RunKeepsInv(Seeded(seededAt), d, events);
    var t := Run(Seeded(seededAt), d, events);
    forall id | id in t.facts
      ensures ValidFactInterval(t.facts[id].validFrom, t.facts[id].validTo)
    {
      IntervalValid(t, id);
    }
    ExclusiveMeansAtMostOneValid(t.facts, slot);
  }
}
