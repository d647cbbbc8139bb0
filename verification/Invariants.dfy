/** What every run of the engine keeps, whatever the clock reports: no two kinds
    share a non-blank ID, every revision is explained by its fact's life, and the
    newest revision of a fact is its current state. */
module Invariants {
  import opened Wrappers
  import opened Text
  import opened Identity
  import opened Records
  import opened EngineSpec

  // ----- the parts of the invariant -----

  /** Global identity: a non-blank ID names records of at most one kind. */
  ghost predicate IdsUnique(s: State) {
    forall id, j, k :: Has(s, j, id) && Has(s, k, id) && !Blank(id) ==> j == k
  }

  ghost predicate KeysMatch(s: State) {
    (forall id :: id in s.sources ==> s.sources[id].id == id) &&
    (forall id :: id in s.episodes ==> s.episodes[id].id == id) &&
    (forall id :: id in s.entities ==> s.entities[id].id == id) &&
    (forall id :: id in s.facts ==> s.facts[id].id == id) &&
    (forall id :: id in s.watermarks ==> s.watermarks[id].id == id)
  }

  /** Every record is stored under its own ID: what any load guarantees. */
  ghost predicate Keyed(s: State) {
    KeysMatch(s) &&
    (forall id :: id in s.factRevisions ==> s.factRevisions[id].id == id) &&
    (forall id :: id in s.entityRevisions ==> s.entityRevisions[id].id == id)
  }

  /** A fact names stored entities and episodes of its own space. */
  predicate FactRefs(s: State, fact: Fact) {
    EndpointOk(s, fact.spaceId, fact.subjectId) &&
    (fact.objectId == "" || EndpointOk(s, fact.spaceId, fact.objectId)) &&
    forall id :: id in fact.support ==> SupportOk(s, fact.spaceId, id)
  }

  ghost predicate RefsOk(s: State) {
    "" !in s.entities && "" !in s.facts &&
    (forall id :: id in s.entities ==> !Blank(s.entities[id].spaceId)) &&
    (forall id :: id in s.episodes ==> s.episodes[id].sourceId in s.sources) &&
    (forall id :: id in s.facts ==> FactRefs(s, s.facts[id]))
  }

  /** A revision ID this engine generated while its sequence was at most `sequence`. */
  predicate Generated(prefix: string, id: string, sequence: nat) {
    0 < RevisionOrder(id) <= sequence && id == IdText(prefix, RevisionOrder(id))
  }

  /** `rid` is later than every other revision of its fact, in time and in number. */
  ghost predicate LastOf(revs: map<string, FactRevision>, rid: string) {
    rid in revs &&
    forall other :: other in revs && other != rid && revs[other].factId == revs[rid].factId ==>
      revs[other].txTime <= revs[rid].txTime && RevisionOrder(other) < RevisionOrder(rid)
  }

  ghost predicate Current(revs: map<string, FactRevision>, fact: Fact) {
    exists rid :: LastOf(revs, rid) && ToFact(revs[rid]) == fact
  }

  ghost predicate FactsCurrent(facts: map<string, Fact>, revs: map<string, FactRevision>) {
    forall id :: id in facts ==> facts[id].id == id && 0 < facts[id].createdAt && Current(revs, facts[id])
  }

  /** No transition moves a fact to another space, subject, object or support. */
  predicate SameEndpoints(a: Fact, b: Fact) {
    a.spaceId == b.spaceId && a.subjectId == b.subjectId && a.objectId == b.objectId && a.support == b.support
  }

  ghost predicate RevisionOk(facts: map<string, Fact>, rid: string, r: FactRevision, sequence: nat) {
    r.id == rid && Generated(FACT_REVISION_PREFIX, rid, sequence) && r.factId in facts &&
    r.txTime == r.updatedAt && 0 < r.txTime && r.createdAt == facts[r.factId].createdAt &&
    SameEndpoints(ToFact(r), facts[r.factId])
  }

  /** The fact log: well-formed revisions, the last of which is the current fact. */
  ghost predicate FactLog(facts: map<string, Fact>, revs: map<string, FactRevision>, sequence: nat) {
    FactsCurrent(facts, revs) &&
    forall rid :: rid in revs ==> RevisionOk(facts, rid, revs[rid], sequence)
  }

  /** The instant a fact was superseded: the creation of its successor. */
  function SupersededAt(facts: map<string, Fact>, fact: Fact): Option<int> {
    if SupersededBy in fact.metadata && fact.metadata[SupersededBy].Text? && fact.metadata[SupersededBy].text in facts
    then Some(facts[fact.metadata[SupersededBy].text].createdAt)
    else None
  }

  /** `superseded_by` and `supersedes` are inverse, and point forward in time. */
  ghost predicate Linked(facts: map<string, Fact>, fact: Fact) {
    (SupersededBy in fact.metadata ==>
      SupersededAt(facts, fact).Some? && fact.createdAt < SupersededAt(facts, fact).value &&
      var successor := facts[fact.metadata[SupersededBy].text];
      Supersedes in successor.metadata && successor.metadata[Supersedes] == Texts([fact.id])) &&
    (Supersedes in fact.metadata ==>
      fact.metadata[Supersedes].Texts? && |fact.metadata[Supersedes].texts| == 1 &&
      var target := fact.metadata[Supersedes].texts[0];
      target in facts && SupersededBy in facts[target].metadata &&
      facts[target].metadata[SupersededBy] == Records.Text(fact.id))
  }

  /** A fact's status agrees with its stamps and its lineage. */
  ghost predicate LifeOk(facts: map<string, Fact>, fact: Fact) {
    Linked(facts, fact) && ValidFactInterval(fact.validFrom, fact.validTo) &&
    match fact.status
    case Active => fact.updatedAt == fact.createdAt && SupersededBy !in fact.metadata
    case Superseded => SupersededAt(facts, fact) == Some(fact.updatedAt)
    case Retracted =>
      fact.retractedAt == fact.updatedAt && fact.createdAt < fact.retractedAt &&
      (SupersededBy in fact.metadata ==> SupersededAt(facts, fact).value < fact.retractedAt)
    case OtherStatus(_) => false
  }

  /** Each revision belongs to one phase of its fact's life, fixed by its stamp. */
  ghost predicate PhaseOk(facts: map<string, Fact>, r: FactRevision)
    requires r.factId in facts
  {
    match r.status
    case Active => r.txTime == r.createdAt
    case Superseded => SupersededAt(facts, facts[r.factId]) == Some(r.txTime)
    case Retracted =>
      facts[r.factId].status == Retracted && r.txTime == facts[r.factId].retractedAt && r.retractedAt == r.txTime
    case OtherStatus(_) => false
  }

  ghost predicate Stamped(revs: map<string, FactRevision>, id: string, status: FactStatus, at: int) {
    exists rid :: rid in revs && revs[rid].factId == id && revs[rid].status == status && revs[rid].txTime == at
  }

  ghost predicate LivesOk(facts: map<string, Fact>) {
    forall id :: id in facts ==> facts[id].id == id && LifeOk(facts, facts[id])
  }

  /** The creation and the supersession of a fact each left a revision. */
  ghost predicate StampsOk(facts: map<string, Fact>, revs: map<string, FactRevision>) {
    forall id :: id in facts ==>
      Stamped(revs, id, Active, facts[id].createdAt) &&
      (SupersededAt(facts, facts[id]).Some? ==>
        Stamped(revs, id, Superseded, SupersededAt(facts, facts[id]).value))
  }

  ghost predicate PhasesOk(facts: map<string, Fact>, revs: map<string, FactRevision>) {
    forall rid :: rid in revs ==> revs[rid].factId in facts && PhaseOk(facts, revs[rid])
  }

  ghost predicate Lifecycle(facts: map<string, Fact>, revs: map<string, FactRevision>) {
    LivesOk(facts) && StampsOk(facts, revs) && PhasesOk(facts, revs)
  }

  ghost predicate LastEntityRevision(revs: map<string, EntityRevision>, rid: string) {
    rid in revs &&
    forall other :: other in revs && other != rid && revs[other].entityId == revs[rid].entityId ==>
      RevisionOrder(other) < RevisionOrder(rid)
  }

  ghost predicate CurrentEntity(revs: map<string, EntityRevision>, entity: Entity) {
    exists rid :: LastEntityRevision(revs, rid) && ToEntity(revs[rid]) == Historyless(entity)
  }

  ghost predicate EntityStamped(revs: map<string, EntityRevision>, id: string, at: int) {
    exists rid :: rid in revs && revs[rid].entityId == id && revs[rid].txTime == at
  }

  ghost predicate EntitiesCurrent(entities: map<string, Entity>, revs: map<string, EntityRevision>) {
    forall id :: id in entities ==>
      entities[id].id == id && CurrentEntity(revs, entities[id]) &&
      EntityStamped(revs, id, entities[id].createdAt)
  }

  ghost predicate EntityRevisionOk(entities: map<string, Entity>, rid: string, r: EntityRevision, sequence: nat) {
    r.id == rid && Generated(ENTITY_REVISION_PREFIX, rid, sequence) && r.entityId in entities &&
    r.txTime == r.updatedAt && 0 < r.txTime && r.spaceId == entities[r.entityId].spaceId
  }

  /** The entity log: the last appended revision is the current entity without its
      `_history`, and the creation has a revision of its own. */
  ghost predicate EntityLog(entities: map<string, Entity>, revs: map<string, EntityRevision>, sequence: nat) {
    EntitiesCurrent(entities, revs) &&
    forall rid :: rid in revs ==> EntityRevisionOk(entities, rid, revs[rid], sequence)
  }

  ghost predicate Core(s: State) {
    IdsUnique(s) && KeysMatch(s) && RefsOk(s) &&
    FactLog(s.facts, s.factRevisions, s.sequence) &&
    EntityLog(s.entities, s.entityRevisions, s.sequence)
  }

  ghost predicate Inv(s: State) {
    Core(s) && Lifecycle(s.facts, s.factRevisions)
  }

  lemma SeedOfNothing(at: int)
    ensures Seed(Empty(), at) == Seeded(at)
  {
    hide SeedEntityRevision, InitialRevision, CurrentRevision;
    assert InitialRevisions(map[]) == map[] && CurrentRevisions(map[], at) == map[] && SeedEntityRevisions(map[], at) == map[];
  }

  /** What the one-time seed makes of an empty database satisfies the invariant. */
  lemma SeededInv(at: int)
    ensures Seeded(at) == Seed(Empty(), at) && Inv(Seeded(at))
  {
    SeedOfNothing(at);
    hide Seed, Empty;
  }

  lemma InvIsKeyed(s: State)
    requires Inv(s)
    ensures Keyed(s) && RefsOk(s) && IdsUnique(s)
  {
    hide Lifecycle, FactsCurrent, EntitiesCurrent, Generated, KeysMatch, RefsOk, IdsUnique;
    assert forall rid :: rid in s.factRevisions ==> RevisionOk(s.facts, rid, s.factRevisions[rid], s.sequence);
    assert forall rid :: rid in s.entityRevisions ==> EntityRevisionOk(s.entities, rid, s.entityRevisions[rid], s.sequence);
  }

  // ----- numbering -----

  lemma IdTextNotEmpty(prefix: string, n: nat)
    ensures IdText(prefix, n) != ""
  {
    hide Pad6;
  }

  lemma FreshId(s: State, prefix: string)
    ensures var (t, id) := NewId(s, prefix);
            t == s.(sequence := t.sequence) && t.sequence > s.sequence && id == IdText(prefix, t.sequence) && id != "" &&
            forall kind :: !Has(s, kind, id)
  {
    var (t, id) := NewId(s, prefix);
    IdTextNotEmpty(prefix, t.sequence);
    assert id !in AllIds(s);
  }

  // ----- appending one fact revision -----

  lemma AppendedIsLast(revs: map<string, FactRevision>, rid: string, r: FactRevision)
    requires rid !in revs
    requires forall other :: other in revs && revs[other].factId == r.factId ==>
      revs[other].txTime <= r.txTime && RevisionOrder(other) < RevisionOrder(rid)
    ensures LastOf(revs[rid := r], rid)
  {
    hide RevisionOrder;
  }

  lemma OthersStayCurrent(revs: map<string, FactRevision>, rid: string, r: FactRevision, fact: Fact)
    requires rid !in revs && r.factId != fact.id && Current(revs, fact)
    ensures Current(revs[rid := r], fact)
  {
    hide RevisionOrder;
    var was :| LastOf(revs, was) && ToFact(revs[was]) == fact;
    assert LastOf(revs[rid := r], was);
  }

  lemma NothingNewer(revs: map<string, FactRevision>, fact: Fact)
    requires Current(revs, fact)
    requires forall rid :: rid in revs ==> revs[rid].txTime == revs[rid].updatedAt
    ensures forall other :: other in revs && revs[other].factId == fact.id ==> revs[other].txTime <= fact.updatedAt
  {
    hide RevisionOrder;
    var was :| LastOf(revs, was) && ToFact(revs[was]) == fact;
  }

  /** Storing a fact no older than before, with its revision, keeps the log. */
  lemma AppendKeepsFactLog(facts: map<string, Fact>, revs: map<string, FactRevision>, sequence: nat,
                           fact: Fact, kind: string, n: nat)
    requires FactLog(facts, revs, sequence)
    requires n > sequence && IdText(FACT_REVISION_PREFIX, n) !in revs
    requires 0 < fact.createdAt <= fact.updatedAt
    requires fact.id in facts ==>
      facts[fact.id].createdAt == fact.createdAt && facts[fact.id].updatedAt <= fact.updatedAt &&
      SameEndpoints(fact, facts[fact.id])
    ensures var rid := IdText(FACT_REVISION_PREFIX, n);
            FactLog(facts[fact.id := fact], revs[rid := NewFactRevision(rid, fact, kind, fact.updatedAt)], n)
  {
    hide RevisionOrder, IdText, Current;
    var rid := IdText(FACT_REVISION_PREFIX, n);
    RevisionOrderRecovered(n);
    var r := NewFactRevision(rid, fact, kind, fact.updatedAt);
    assert ToFact(r) == fact;
    if fact.id in facts {
      NothingNewer(revs, facts[fact.id]);
    }
    FactsStayCurrent(facts, revs, rid, r, fact);
  }

  lemma FactsStayCurrent(facts: map<string, Fact>, revs: map<string, FactRevision>,
                         rid: string, r: FactRevision, fact: Fact)
    requires FactsCurrent(facts, revs) && rid !in revs && ToFact(r) == fact && 0 < fact.createdAt
    requires forall other :: other in revs && revs[other].factId == r.factId ==>
      revs[other].txTime <= r.txTime && RevisionOrder(other) < RevisionOrder(rid)
    ensures FactsCurrent(facts[fact.id := fact], revs[rid := r])
  {
    hide RevisionOrder;
    forall id | id in facts
      ensures id != fact.id ==> Current(revs[rid := r], facts[id])
    {
      if id != fact.id {
        OthersStayCurrent(revs, rid, r, facts[id]);
      }
    }
    AppendedIsLast(revs, rid, r);
  }

  // ----- appending one entity revision -----

  lemma AppendKeepsEntityLog(entities: map<string, Entity>, revs: map<string, EntityRevision>, sequence: nat,
                             entity: Entity, kind: string, n: nat)
    requires EntityLog(entities, revs, sequence)
    requires n > sequence && IdText(ENTITY_REVISION_PREFIX, n) !in revs
    requires 0 < entity.updatedAt
    requires if entity.id in entities then
               entities[entity.id].createdAt == entity.createdAt && entities[entity.id].spaceId == entity.spaceId
             else entity.createdAt == entity.updatedAt
    ensures var rid := IdText(ENTITY_REVISION_PREFIX, n);
            EntityLog(entities[entity.id := entity],
                      revs[rid := NewEntityRevision(rid, entity, kind, entity.updatedAt)], n)
  {
    hide RevisionOrder, IdText, EntitiesCurrent;
    var rid := IdText(ENTITY_REVISION_PREFIX, n);
    RevisionOrderRecovered(n);
    var r := NewEntityRevision(rid, entity, kind, entity.updatedAt);
    assert ToEntity(r) == Historyless(entity);
    EntitiesStayCurrent(entities, revs, rid, r, entity);
  }

  lemma EntitiesStayCurrent(entities: map<string, Entity>, revs: map<string, EntityRevision>,
                            rid: string, r: EntityRevision, entity: Entity)
    requires EntitiesCurrent(entities, revs) && rid !in revs
    requires forall other :: other in revs ==> RevisionOrder(other) < RevisionOrder(rid)
    requires ToEntity(r) == Historyless(entity) && r.txTime == entity.updatedAt
    requires if entity.id in entities then entities[entity.id].createdAt == entity.createdAt
             else entity.createdAt == entity.updatedAt
    ensures EntitiesCurrent(entities[entity.id := entity], revs[rid := r])
  {
    hide RevisionOrder;
    var revs' := revs[rid := r];
    forall id | id in entities
      ensures EntityStamped(revs', id, entities[id].createdAt)
      ensures id != entity.id ==> CurrentEntity(revs', entities[id])
    {
      EntityStaysStamped(revs, rid, r, id, entities[id].createdAt);
      if id != entity.id {
        OtherEntitiesStayCurrent(revs, rid, r, entities[id]);
      }
    }
    assert LastEntityRevision(revs', rid);
    assert revs'[rid].entityId == entity.id;
  }

  lemma OtherEntitiesStayCurrent(revs: map<string, EntityRevision>, rid: string, r: EntityRevision, entity: Entity)
    requires rid !in revs && r.entityId != entity.id && CurrentEntity(revs, entity)
    ensures CurrentEntity(revs[rid := r], entity)
  {
    hide RevisionOrder;
    var was :| LastEntityRevision(revs, was) && ToEntity(revs[was]) == Historyless(entity);
    assert LastEntityRevision(revs[rid := r], was);
  }

  lemma EntityStaysStamped(revs: map<string, EntityRevision>, rid: string, r: EntityRevision, id: string, at: int)
    requires rid !in revs && EntityStamped(revs, id, at)
    ensures EntityStamped(revs[rid := r], id, at)
  {
    var w :| w in revs && revs[w].entityId == id && revs[w].txTime == at;
    assert revs[rid := r][w] == revs[w];
  }

  // ----- lives of facts -----

  lemma StaysStamped(revs: map<string, FactRevision>, rid: string, r: FactRevision,
                     id: string, status: FactStatus, at: int)
    requires Stamped(revs, id, status, at) && rid !in revs
    ensures Stamped(revs[rid := r], id, status, at)
  {
    var w :| w in revs && revs[w].factId == id && revs[w].status == status && revs[w].txTime == at;
    assert revs[rid := r][w] == revs[w];
  }

  /** One more revision keeps the stamps, whether it adds a fact, supersedes one, or
      neither. */
  lemma StampsGrow(facts: map<string, Fact>, revs: map<string, FactRevision>, facts': map<string, Fact>,
                   rid: string, r: FactRevision)
    requires StampsOk(facts, revs) && rid !in revs
    requires forall id :: id in facts' ==>
      if id in facts then
        facts'[id].createdAt == facts[id].createdAt &&
        (SupersededAt(facts', facts'[id]) == SupersededAt(facts, facts[id]) ||
         (SupersededAt(facts', facts'[id]) == Some(r.txTime) && r.factId == id && r.status == Superseded))
      else
        SupersededAt(facts', facts'[id]) == None && r.factId == id && r.status == Active &&
        r.txTime == facts'[id].createdAt
    ensures StampsOk(facts', revs[rid := r])
  {
    hide SupersededAt;
    var revs' := revs[rid := r];
    assert revs'[rid] == r;
    forall id | id in facts'
      ensures Stamped(revs', id, Active, facts'[id].createdAt)
      ensures SupersededAt(facts', facts'[id]).Some? ==>
        Stamped(revs', id, Superseded, SupersededAt(facts', facts'[id]).value)
    {
      if id in facts {
        StaysStamped(revs, rid, r, id, Active, facts[id].createdAt);
        if SupersededAt(facts, facts[id]).Some? {
          StaysStamped(revs, rid, r, id, Superseded, SupersededAt(facts, facts[id]).value);
        }
      }
    }
  }

  lemma PhasesGrow(facts: map<string, Fact>, revs: map<string, FactRevision>, facts': map<string, Fact>,
                   rid: string, r: FactRevision)
    requires PhasesOk(facts, revs) && r.factId in facts' && PhaseOk(facts', r)
    requires forall id :: id in facts ==>
      id in facts' &&
      (SupersededAt(facts, facts[id]).Some? ==> SupersededAt(facts', facts'[id]) == SupersededAt(facts, facts[id])) &&
      (facts[id].status == Retracted ==>
        facts'[id].status == Retracted && facts'[id].retractedAt == facts[id].retractedAt)
    ensures PhasesOk(facts', revs[rid := r])
  {
    hide SupersededAt;
    forall other | other in revs
      ensures PhaseOk(facts', revs[other])
    {
      assert PhaseOk(facts, revs[other]);
    }
  }

  lemma AssertKeepsLives(facts: map<string, Fact>, fact: Fact)
    requires LivesOk(facts) && fact.id !in facts
    requires fact.status == Active && fact.createdAt == fact.updatedAt
    requires SupersededBy !in fact.metadata && Supersedes !in fact.metadata
    requires ValidFactInterval(fact.validFrom, fact.validTo)
    ensures var facts' := facts[fact.id := fact];
            LivesOk(facts') && SupersededAt(facts', fact) == None &&
            forall id :: id in facts ==> SupersededAt(facts', facts[id]) == SupersededAt(facts, facts[id])
  {
    forall id | id in facts
      ensures LifeOk(facts[fact.id := fact], facts[id])
      ensures SupersededAt(facts[fact.id := fact], facts[id]) == SupersededAt(facts, facts[id])
    {
      assert LifeOk(facts, facts[id]);
    }
  }

  lemma AssertKeepsLifecycle(facts: map<string, Fact>, revs: map<string, FactRevision>, fact: Fact,
                             rid: string, r: FactRevision)
    requires Lifecycle(facts, revs)
    requires fact.id !in facts && rid !in revs
    requires fact.status == Active && fact.createdAt == fact.updatedAt
    requires SupersededBy !in fact.metadata && Supersedes !in fact.metadata
    requires ValidFactInterval(fact.validFrom, fact.validTo)
    requires r.factId == fact.id && r.status == Active && r.txTime == r.createdAt == fact.createdAt
    ensures Lifecycle(facts[fact.id := fact], revs[rid := r])
  {
    AssertKeepsLives(facts, fact);
    hide SupersededAt, LivesOk, StampsOk, PhasesOk;
    StampsGrow(facts, revs, facts[fact.id := fact], rid, r);
    PhasesGrow(facts, revs, facts[fact.id := fact], rid, r);
  }

  lemma RetractKeepsLives(facts: map<string, Fact>, id: string, reason: string, now: int)
    requires LivesOk(facts) && id in facts
    requires facts[id].status != Retracted && facts[id].createdAt <= facts[id].updatedAt
    ensures var facts' := facts[id := RetractedFact(facts[id], reason, now)];
            LivesOk(facts') &&
            forall other :: other in facts ==>
              SupersededAt(facts', facts'[other]) == SupersededAt(facts, facts[other])
  {
    var facts' := facts[id := RetractedFact(facts[id], reason, now)];
    assert LifeOk(facts, facts[id]);
    forall other | other in facts
      ensures LifeOk(facts', facts'[other])
      ensures SupersededAt(facts', facts'[other]) == SupersededAt(facts, facts[other])
    {
      assert LifeOk(facts, facts[other]);
    }
  }

  lemma RetractKeepsLifecycle(facts: map<string, Fact>, revs: map<string, FactRevision>, id: string,
                              reason: string, now: int, rid: string, r: FactRevision)
    requires Lifecycle(facts, revs) && id in facts && rid !in revs
    requires facts[id].status != Retracted && facts[id].createdAt <= facts[id].updatedAt
    requires r.factId == id && r.status == Retracted && r.txTime == RetractedFact(facts[id], reason, now).updatedAt
    requires r.retractedAt == r.txTime
    ensures Lifecycle(facts[id := RetractedFact(facts[id], reason, now)], revs[rid := r])
  {
    RetractKeepsLives(facts, id, reason, now);
    hide SupersededAt, LivesOk, StampsOk, PhasesOk;
    StampsGrow(facts, revs, facts[id := RetractedFact(facts[id], reason, now)], rid, r);
    PhasesGrow(facts, revs, facts[id := RetractedFact(facts[id], reason, now)], rid, r);
  }

  // ----- supersession -----

  /** The two facts a supersession rewrites, after the successor was asserted. */
  function Handover(facts: map<string, Fact>, id: string, input: FactInput, successor: Fact, reason: string): map<string, Fact>
    requires id in facts
  {
    facts[id := RetiredFact(facts[id], input, successor, reason)]
         [successor.id := ReplacementFact(successor, id, reason)]
  }

  ghost predicate HandoverReady(facts: map<string, Fact>, id: string, input: FactInput, successor: Fact) {
    id in facts && successor.id in facts && id != successor.id && facts[successor.id] == successor &&
    facts[id].status == Active && successor.status == Active &&
    facts[id].createdAt < successor.createdAt && Supersedes !in successor.metadata
  }

  lemma HandoverKeepsOthers(facts: map<string, Fact>, id: string, input: FactInput, successor: Fact,
                            reason: string, other: string)
    requires LivesOk(facts) && HandoverReady(facts, id, input, successor)
    requires other in facts && other != id
    ensures var facts' := Handover(facts, id, input, successor, reason);
            LifeOk(facts', facts'[other]) && SupersededAt(facts', facts'[other]) == SupersededAt(facts, facts[other])
  {
    assert LifeOk(facts, facts[other]) && LifeOk(facts, facts[id]) && LifeOk(facts, successor);
  }

  lemma HandoverRetires(facts: map<string, Fact>, id: string, input: FactInput, successor: Fact, reason: string)
    requires LivesOk(facts) && HandoverReady(facts, id, input, successor)
    ensures var facts' := Handover(facts, id, input, successor, reason);
            LifeOk(facts', facts'[id]) && SupersededAt(facts', facts'[id]) == Some(successor.createdAt) &&
            SupersededAt(facts, facts[id]) == None
  {
    assert LifeOk(facts, facts[id]) && LifeOk(facts, successor);
  }

  lemma HandoverKeepsLives(facts: map<string, Fact>, id: string, input: FactInput, successor: Fact, reason: string)
    requires LivesOk(facts) && HandoverReady(facts, id, input, successor)
    ensures var facts' := Handover(facts, id, input, successor, reason);
            LivesOk(facts') &&
            (forall other :: other in facts && other != id ==>
              SupersededAt(facts', facts'[other]) == SupersededAt(facts, facts[other])) &&
            SupersededAt(facts', facts'[id]) == Some(successor.createdAt) && SupersededAt(facts, facts[id]) == None
  {
    HandoverRetires(facts, id, input, successor, reason);
    var facts' := Handover(facts, id, input, successor, reason);
    hide LifeOk, SupersededAt;
    forall other | other in facts && other != id
      ensures LifeOk(facts', facts'[other]) && SupersededAt(facts', facts'[other]) == SupersededAt(facts, facts[other])
    {
      HandoverKeepsOthers(facts, id, input, successor, reason, other);
    }
  }

  /** A supersession keeps every fact's life consistent: the retired fact and its
      successor end up linked both ways and share the handover instant. */
  lemma HandoverKeepsLifecycle(facts: map<string, Fact>, revs: map<string, FactRevision>, id: string,
                               input: FactInput, successor: Fact, reason: string,
                               r1: string, a: FactRevision, r2: string, b: FactRevision)
    requires Lifecycle(facts, revs) && HandoverReady(facts, id, input, successor)
    requires r1 !in revs && r2 !in revs && r1 != r2
    requires a.factId == id && a.status == Superseded && a.txTime == successor.createdAt
    requires b.factId == successor.id && b.status == Active && b.txTime == b.createdAt
    ensures Lifecycle(Handover(facts, id, input, successor, reason), revs[r1 := a][r2 := b])
  {
    HandoverKeepsLives(facts, id, input, successor, reason);
    hide SupersededAt, LivesOk, StampsOk, PhasesOk;
    var facts' := Handover(facts, id, input, successor, reason);
    StampsGrow(facts, revs, facts', r1, a);
    PhasesGrow(facts, revs, facts', r1, a);
    StampsGrow(facts', revs[r1 := a], facts', r2, b);
    PhasesGrow(facts', revs[r1 := a], facts', r2, b);
  }
}
