/** Time travel: cuts in the past never change, and while the clock moves forward
    a cut shows exactly the state the database had at that instant. */
module TimeTravel {
  import opened Wrappers
  import opened Text
  import opened Identity
  import opened Records
  import opened EngineSpec
  import opened Invariants
  import opened Preservation
  import opened Cuts
  import EntityHistory

  // ----- immutability -----

  lemma LatestFactStable(a: map<string, FactRevision>, b: map<string, FactRevision>, factId: string, at: int, lo: int, hi: int)
    requires FactRevisionsGrow(a, b, lo, hi) && at < lo
    ensures LatestFactRevision(a, factId, at) == LatestFactRevision(b, factId, at)
  {
    assert FactLogAt(a, factId, at) == FactLogAt(b, factId, at);
  }

  lemma LatestEntityStable(a: map<string, EntityRevision>, b: map<string, EntityRevision>, entityId: string, at: int, sequence: nat, lo: int, hi: int)
    requires EntityRevisionsGrow(a, b, sequence, lo, hi) && at < lo
    ensures LatestEntityRevision(a, entityId, at) == LatestEntityRevision(b, entityId, at)
  {
    assert EntityLogAt(a, entityId, at) == EntityLogAt(b, entityId, at);
  }

  /** A fact without a revision at an instant did not exist yet. */
  lemma UnrecordedFactIsFuture(s: State, id: string, at: int)
    requires Inv(s) && id in s.facts && LatestFactRevision(s.factRevisions, id, at).None?
    ensures at < s.facts[id].createdAt <= s.facts[id].updatedAt
  {
    hide IdsUnique, RevisionOrder, IdText, LifeOk, RefsOk, EntityLog, PhasesOk, LivesOk, Current;
    FactStamps(s, id);
    assert Stamped(s.factRevisions, id, Active, s.facts[id].createdAt);
    var rid :| rid in s.factRevisions && s.factRevisions[rid].factId == id && s.factRevisions[rid].txTime == s.facts[id].createdAt;
    assert rid !in FactLogAt(s.factRevisions, id, at).Keys;
  }

  lemma UnrecordedEntityIsFuture(s: State, id: string, at: int)
    requires Inv(s) && id in s.entities && LatestEntityRevision(s.entityRevisions, id, at).None?
    ensures at < s.entities[id].createdAt
  {
    hide IdsUnique, RevisionOrder, IdText, RefsOk, FactLog, Lifecycle, CurrentEntity;
    assert EntityStamped(s.entityRevisions, id, s.entities[id].createdAt);
    var rid :| rid in s.entityRevisions && s.entityRevisions[rid].entityId == id && s.entityRevisions[rid].txTime == s.entities[id].createdAt;
    assert rid !in EntityLogAt(s.entityRevisions, id, at).Keys;
  }

  lemma FactsStable(s: State, t: State, filter: TemporalFilter, lo: int, hi: int)
    requires Inv(s) && Inv(t) && Grows(s, t, lo, hi)
    requires filter.asOf.Some? && filter.asOf.value < lo
    ensures FactsAt(s, filter) == FactsAt(t, filter)
  {
    hide Core, Lifecycle, FactVisibleAt, LatestFactRevision;
    var at := filter.asOf.value;
    forall id | id in t.facts
      ensures id in s.facts ==>
        FactVersionAt(s.factRevisions, s.facts[id], filter) == FactVersionAt(t.factRevisions, t.facts[id], filter)
      ensures id !in s.facts ==> FactVersionAt(t.factRevisions, t.facts[id], filter).None?
    {
      LatestFactStable(s.factRevisions, t.factRevisions, id, at, lo, hi);
      FactStamps(t, id);
      if id in s.facts {
        FactStamps(s, id);
      } else {
        UnknownFactUnrecorded(s, id, at);
      }
      if LatestFactRevision(t.factRevisions, id, at).None? {
        UnrecordedFactIsFuture(t, id, at);
        if id in s.facts {
          UnrecordedFactIsFuture(s, id, at);
        }
      }
    }
  }

  lemma UnknownFactUnrecorded(s: State, id: string, at: int)
    requires Inv(s) && id !in s.facts
    ensures LatestFactRevision(s.factRevisions, id, at).None?
  {
    hide IdsUnique, RevisionOrder, IdText, RefsOk, EntityLog, Lifecycle, Current;
    assert FactLogAt(s.factRevisions, id, at).Keys == {};
  }

  lemma UnknownEntityUnrecorded(s: State, id: string, at: int)
    requires Inv(s) && id !in s.entities
    ensures LatestEntityRevision(s.entityRevisions, id, at).None?
  {
    hide IdsUnique, RevisionOrder, IdText, RefsOk, FactLog, Lifecycle, CurrentEntity;
    assert EntityLogAt(s.entityRevisions, id, at).Keys == {};
  }

  lemma EntityIdMatches(s: State, id: string)
    requires Inv(s) && id in s.entities
    ensures s.entities[id].id == id
  {
    hide IdsUnique, RefsOk, FactLog, EntityLog, Lifecycle;
  }

  lemma EntitiesStable(s: State, t: State, filter: TemporalFilter, lo: int, hi: int)
    requires Inv(s) && Inv(t) && Grows(s, t, lo, hi)
    requires filter.asOf.Some? && filter.asOf.value < lo
    ensures EntitiesAt(s, filter) == EntitiesAt(t, filter)
  {
    hide Core, Lifecycle, LatestEntityRevision, EntityHistory.RebuiltAt;
    var at := filter.asOf.value;
    forall id | id in t.entities
      ensures id in s.entities ==>
        EntityVersionAt(s.entityRevisions, s.entities[id], filter) == EntityVersionAt(t.entityRevisions, t.entities[id], filter)
      ensures id !in s.entities ==> EntityVersionAt(t.entityRevisions, t.entities[id], filter).None?
    {
      LatestEntityStable(s.entityRevisions, t.entityRevisions, id, at, s.sequence, lo, hi);
      EntityIdMatches(t, id);
      if id in s.entities {
        EntityIdMatches(s, id);
      } else {
        UnknownEntityUnrecorded(s, id, at);
      }
      if LatestEntityRevision(t.entityRevisions, id, at).None? {
        UnrecordedEntityIsFuture(t, id, at);
        if id in s.entities {
          UnrecordedEntityIsFuture(s, id, at);
        }
      }
    }
  }

  lemma EpisodesStable(s: State, t: State, filter: TemporalFilter, lo: int, hi: int)
    requires RefsOk(s) && Grows(s, t, lo, hi)
    requires filter.asOf.Some? && filter.asOf.value < lo
    ensures EpisodesAt(s, filter) == EpisodesAt(t, filter) && SourcesAt(s, filter) == SourcesAt(t, filter)
  {
    hide FactRevisionsGrow, EntityRevisionsGrow;
  }

  /** Time-travel reads are immutable: a cut taken before everything that was added
      later is the same cut, whatever the clock did before. */
  lemma CutImmutable(s: State, t: State, filter: TemporalFilter, lo: int, hi: int)
    requires Inv(s) && Inv(t) && Grows(s, t, lo, hi)
    requires filter.asOf.Some? && filter.asOf.value < lo
    ensures CutAt(s, filter) == CutAt(t, filter)
  {
    assert RefsOk(s) by {
      hide Grows, IdsUnique, FactLog, EntityLog, Lifecycle;
    }
    hide Inv, Grows, EpisodesAt, SourcesAt, EntitiesAt, FactsAt;
    FactsStable(s, t, filter, lo, hi);
    EntitiesStable(s, t, filter, lo, hi);
    EpisodesStable(s, t, filter, lo, hi);
  }

  /** No mutation whose clock reading is after T can change what a read as of T sees. */
  lemma MutationKeepsPast(s: State, d: Derivation, op: Op, now: int, filter: TemporalFilter)
    requires Inv(s) && filter.asOf.Some? && filter.asOf.value < now && now > 0
    ensures CutAt(Step(s, d, op, now), filter) == CutAt(s, filter)
  {
    hide Inv, Grows, Step, CutAt;
    StepKeepsInv(s, d, op, now);
    CutImmutable(s, Step(s, d, op, now), filter, now, Reach(s, op, now));
  }

  // ----- fidelity -----

  /** No stored stamp is later than `bound`. */
  ghost predicate AllUpto(s: State, bound: int) {
    (forall id :: id in s.sources ==> s.sources[id].createdAt <= bound) &&
    (forall id :: id in s.episodes ==> s.episodes[id].ingestedAt <= bound) &&
    (forall rid :: rid in s.factRevisions ==> s.factRevisions[rid].txTime <= bound) &&
    (forall rid :: rid in s.entityRevisions ==> s.entityRevisions[rid].txTime <= bound)
  }

  /** Entity revisions are stamped in the order they were appended. Entity writes are
      not pushed past earlier ones, so this needs a forward clock. */
  ghost predicate EntitiesOrdered(revs: map<string, EntityRevision>) {
    forall a, b :: a in revs && b in revs && RevisionOrder(a) < RevisionOrder(b) ==> revs[a].txTime <= revs[b].txTime
  }

  lemma TargetStampBounded(s: State, id: string, bound: int)
    requires Inv(s) && AllUpto(s, bound) && id in s.facts
    ensures s.facts[id].updatedAt <= bound
  {
    hide IdsUnique, RevisionOrder, IdText, LifeOk, RefsOk, EntityLog, PhasesOk, LivesOk, StampsOk;
    assert Current(s.factRevisions, s.facts[id]);
    var rid :| LastOf(s.factRevisions, rid) && ToFact(s.factRevisions[rid]) == s.facts[id];
    assert RevisionOk(s.facts, rid, s.factRevisions[rid], s.sequence);
  }

  lemma OrderBounded(s: State, rid: string)
    requires Inv(s) && rid in s.entityRevisions
    ensures RevisionOrder(rid) <= s.sequence
  {
    hide IdsUnique, RevisionOrder, IdText, RefsOk, FactLog, Lifecycle, EntitiesCurrent;
    assert EntityRevisionOk(s.entities, rid, s.entityRevisions[rid], s.sequence);
  }

  /** A mutation whose reading is later than every stored stamp keeps the log ordered
      and leaves no stamp later than that reading. */
  lemma ForwardStep(s: State, d: Derivation, op: Op, now: int)
    requires Inv(s) && now > 0 && AllUpto(s, now - 1) && EntitiesOrdered(s.entityRevisions)
    ensures AllUpto(Step(s, d, op, now), now) && EntitiesOrdered(Step(s, d, op, now).entityRevisions)
  {
    hide Inv, Step, RevisionOrder;
    StepKeepsInv(s, d, op, now);
    var t := Step(s, d, op, now);
    assert Reach(s, op, now) == now by {
      if op.SupersedeOp? && op.target in s.facts {
        TargetStampBounded(s, op.target, now - 1);
      }
      if op.RetractOp? && op.target in s.facts {
        TargetStampBounded(s, op.target, now - 1);
      }
    }
    forall a, b | a in t.entityRevisions && b in t.entityRevisions && RevisionOrder(a) < RevisionOrder(b)
      ensures t.entityRevisions[a].txTime <= t.entityRevisions[b].txTime
    {
      if b in s.entityRevisions && a !in s.entityRevisions {
        OrderBounded(s, b);
      }
    }
  }

  /** `_history` is the one thing a revision does not carry. */
  ghost function Plain(cut: Cut): Cut {
    cut.(entities := map id | id in cut.entities :: Historyless(cut.entities[id]))
  }

  lemma LatestFactIsCurrent(s: State, id: string, at: int)
    requires Inv(s) && AllUpto(s, at) && id in s.facts
    ensures LatestFactRevision(s.factRevisions, id, at).Some?
    ensures ToFact(LatestFactRevision(s.factRevisions, id, at).value) == s.facts[id]
  {
    hide IdsUnique, RevisionOrder, IdText, LifeOk, RefsOk, EntityLog, PhasesOk, LivesOk, StampsOk, RevisionOk, Less;
    assert Current(s.factRevisions, s.facts[id]) && s.facts[id].id == id;
    var rid :| LastOf(s.factRevisions, rid) && ToFact(s.factRevisions[rid]) == s.facts[id];
    var log := FactLogAt(s.factRevisions, id, at);
    assert rid in log;
    assert IsNewest(log, rid);
    NewestUnique(log, rid, Newest(log).value);
  }

  lemma LatestEntityIsCurrent(s: State, id: string, at: int)
    requires Inv(s) && AllUpto(s, at) && EntitiesOrdered(s.entityRevisions) && id in s.entities
    ensures LatestEntityRevision(s.entityRevisions, id, at).Some?
    ensures ToEntity(LatestEntityRevision(s.entityRevisions, id, at).value) == Historyless(s.entities[id])
  {
    hide IdsUnique, RevisionOrder, IdText, RefsOk, FactLog, Lifecycle, EntityRevisionOk, Less;
    assert CurrentEntity(s.entityRevisions, s.entities[id]) && s.entities[id].id == id;
    var rid :| LastEntityRevision(s.entityRevisions, rid) && ToEntity(s.entityRevisions[rid]) == Historyless(s.entities[id]);
    var log := EntityLogAt(s.entityRevisions, id, at);
    assert rid in log;
    assert IsNewest(log, rid);
    NewestUnique(log, rid, Newest(log).value);
  }

  lemma FactsAtTheTop(s: State, at: int, filter: TemporalFilter)
    requires Inv(s) && AllUpto(s, at) && filter.asOf.None?
    ensures FactsAt(s, filter.(asOf := Some(at))) == FactsAt(s, filter)
  {
    hide Inv, AllUpto, LatestFactRevision, FactDomainValidAt, FactDomainOverlaps;
    var past := filter.(asOf := Some(at));
    forall id | id in s.facts
      ensures FactVersionAt(s.factRevisions, s.facts[id], past) == FactVersionAt(s.factRevisions, s.facts[id], filter)
    {
      FactStamps(s, id);
      TargetStampBounded(s, id, at);
      LatestFactIsCurrent(s, id, at);
    }
  }

  lemma EntitiesAtTheTop(s: State, at: int, filter: TemporalFilter)
    requires Inv(s) && AllUpto(s, at) && EntitiesOrdered(s.entityRevisions) && filter.asOf.None?
    ensures EntitiesAt(s, filter.(asOf := Some(at))) ==
            map id | id in EntitiesAt(s, filter) :: Historyless(EntitiesAt(s, filter)[id])
  {
    hide Inv, AllUpto, LatestEntityRevision, EntitiesOrdered, Historyless, EntityHistory.RebuiltAt;
    var past := filter.(asOf := Some(at));
    forall id | id in s.entities
      ensures EntityVersionAt(s.entityRevisions, s.entities[id], past) == Some(Historyless(s.entities[id]))
    {
      EntityIdMatches(s, id);
      LatestEntityIsCurrent(s, id, at);
    }
  }

  /** At or after the last stamp, the cut is the live state. */
  lemma CutAtTheTop(s: State, at: int, filter: TemporalFilter)
    requires Inv(s) && AllUpto(s, at) && EntitiesOrdered(s.entityRevisions) && filter.asOf.None?
    ensures CutAt(s, filter.(asOf := Some(at))) == Plain(CutAt(s, filter))
  {
    FactsAtTheTop(s, at, filter);
    EntitiesAtTheTop(s, at, filter);
    hide Inv, EntitiesOrdered, EntitiesAt, FactsAt;
    assert SourcesAt(s, filter.(asOf := Some(at))) == SourcesAt(s, filter);
    assert EpisodesAt(s, filter.(asOf := Some(at))) == EpisodesAt(s, filter);
  }

  // ----- exactly when the top of the log is the live state -----

  /** No revision of an entity is stamped later than the entity's last write. */
  ghost predicate NoneAhead(s: State) {
    forall rid :: rid in s.entityRevisions && s.entityRevisions[rid].entityId in s.entities ==>
      s.entityRevisions[rid].txTime <= s.entities[s.entityRevisions[rid].entityId].updatedAt
  }

  lemma LastWritten(s: State, id: string) returns (rid: string)
    requires Inv(s) && id in s.entities
    ensures s.entities[id].id == id && LastEntityRevision(s.entityRevisions, rid)
    ensures ToEntity(s.entityRevisions[rid]) == Historyless(s.entities[id])
    ensures s.entityRevisions[rid].txTime == s.entities[id].updatedAt
  {
    hide IdsUnique, RevisionOrder, Generated, RefsOk, FactLog, Lifecycle;
    assert CurrentEntity(s.entityRevisions, s.entities[id]);
    rid :| LastEntityRevision(s.entityRevisions, rid) && ToEntity(s.entityRevisions[rid]) == Historyless(s.entities[id]);
    assert EntityRevisionOk(s.entities, rid, s.entityRevisions[rid], s.sequence);
  }

  lemma EntityShownIff(s: State, id: string, at: int)
    requires Inv(s) && AllUpto(s, at) && id in s.entities
    ensures LatestEntityRevision(s.entityRevisions, id, at).Some?
    ensures ToEntity(LatestEntityRevision(s.entityRevisions, id, at).value) == Historyless(s.entities[id]) <==>
            forall rid :: rid in s.entityRevisions && s.entityRevisions[rid].entityId == id ==>
              s.entityRevisions[rid].txTime <= s.entities[id].updatedAt
  {
    hide Inv, RevisionOrder, Less;
    var last := LastWritten(s, id);
    var log := EntityLogAt(s.entityRevisions, id, at);
    assert last in log;
    var newest := Newest(log).value;
    StampIsUpdate(s, newest);
    if forall rid :: rid in s.entityRevisions && s.entityRevisions[rid].entityId == id ==>
         s.entityRevisions[rid].txTime <= s.entities[id].updatedAt {
      assert IsNewest(log, last);
      NewestUnique(log, last, newest);
    } else {
      var ahead :| ahead in s.entityRevisions && s.entityRevisions[ahead].entityId == id &&
        s.entityRevisions[ahead].txTime > s.entities[id].updatedAt;
      assert ahead in log;
    }
  }

  lemma StampIsUpdate(s: State, rid: string)
    requires Inv(s) && rid in s.entityRevisions
    ensures s.entityRevisions[rid].txTime == s.entityRevisions[rid].updatedAt
  {
    hide IdsUnique, RevisionOrder, Generated, RefsOk, FactLog, Lifecycle, EntitiesCurrent;
    assert EntityRevisionOk(s.entities, rid, s.entityRevisions[rid], s.sequence);
  }

  /** At or after the last stamp a read shows the live entities, up to `_history`, exactly
      if none of them has a revision ahead of its last write. Sources, episodes and facts
      are always shown as they are. */
  lemma CutAtTheTopIff(s: State, at: int, filter: TemporalFilter)
    requires Inv(s) && AllUpto(s, at) && filter.asOf.None?
    ensures CutAt(s, filter.(asOf := Some(at))) == Plain(CutAt(s, filter)) <==> NoneAhead(s)
  {
    hide Inv, AllUpto, EntitiesAt, FactsAt, NoneAhead, SourcesAt, EpisodesAt;
    FactsAtTheTop(s, at, filter);
    OthersAtTheTop(s, at, filter);
    EntitiesAtTheTopIff(s, at, filter);
  }

  lemma OthersAtTheTop(s: State, at: int, filter: TemporalFilter)
    requires AllUpto(s, at) && filter.asOf.None?
    ensures SourcesAt(s, filter.(asOf := Some(at))) == SourcesAt(s, filter)
    ensures EpisodesAt(s, filter.(asOf := Some(at))) == EpisodesAt(s, filter)
  {
    var past := filter.(asOf := Some(at));
    forall id | id in s.sources
      ensures SourceVisibleAt(s.sources[id], past) && SourceVisibleAt(s.sources[id], filter)
    {
    }
    forall id | id in s.episodes
      ensures EpisodeVisibleAt(s.episodes[id], past) <==> EpisodeVisibleAt(s.episodes[id], filter)
    {
    }
    hide SourceVisibleAt, EpisodeVisibleAt, AllUpto;
  }

  ghost predicate NoneAheadOf(s: State, id: string)
    requires id in s.entities
  {
    forall rid :: rid in s.entityRevisions && s.entityRevisions[rid].entityId == id ==>
      s.entityRevisions[rid].txTime <= s.entities[id].updatedAt
  }

  lemma ShownIff(s: State, id: string, at: int, filter: TemporalFilter)
    requires Inv(s) && AllUpto(s, at) && filter.asOf.None? && id in s.entities
    ensures var shown, live := EntitiesAt(s, filter.(asOf := Some(at))), Plain(CutAt(s, filter)).entities;
            id in shown && id in live && (shown[id] == live[id] <==> NoneAheadOf(s, id))
  {
    hide Inv, AllUpto, LatestEntityRevision, Historyless, FactsAt, SourcesAt, EpisodesAt, EntityHistory.RebuiltAt;
    EntityIdMatches(s, id);
    EntityShownIff(s, id, at);
  }

  lemma EntitiesAtTheTopIff(s: State, at: int, filter: TemporalFilter)
    requires Inv(s) && AllUpto(s, at) && filter.asOf.None?
    ensures EntitiesAt(s, filter.(asOf := Some(at))) == Plain(CutAt(s, filter)).entities <==> NoneAhead(s)
  {
    hide Inv, AllUpto, LatestEntityRevision, Historyless, FactsAt, SourcesAt, EpisodesAt, EntityVersionAt;
    var shown := EntitiesAt(s, filter.(asOf := Some(at)));
    var live := Plain(CutAt(s, filter)).entities;
    forall id | id in s.entities
      ensures id in shown && id in live && (shown[id] == live[id] <==> NoneAheadOf(s, id))
    {
      ShownIff(s, id, at, filter);
    }
    assert shown.Keys == live.Keys == s.entities.Keys;
    assert NoneAhead(s) <==> forall id :: id in s.entities ==> NoneAheadOf(s, id);
  }

  // ----- databases from before the revision log -----

  lemma UnrecordedMeans(revs: map<string, EntityRevision>, id: string, at: int)
    ensures LatestEntityRevision(revs, id, at).None? <==>
            forall rid :: rid in revs && revs[rid].entityId == id ==> at < revs[rid].txTime
  {
    hide Newest;
    var log := EntityLogAt(revs, id, at);
    assert log.Keys == {} <==> forall rid :: rid in revs && revs[rid].entityId == id ==> at < revs[rid].txTime by {
      forall rid | rid in revs
        ensures rid in log <==> revs[rid].entityId == id && revs[rid].txTime <= at
      {
      }
    }
  }

  lemma SeedStamps(entities: map<string, Entity>, seededAt: int, name: string)
    requires name in SeedEntityRevisions(entities, seededAt)
    ensures var r := SeedEntityRevisions(entities, seededAt)[name];
            exists id :: id in entities && r.entityId == entities[id].id &&
                         (entities[id].updatedAt != UNSET ==> r.txTime == entities[id].updatedAt)
  {
    hide WithoutHistory;
    var id :| id in entities && name == SeedName(id, "");
    assert SeedEntityRevisions(entities, seededAt)[name] == SeedEntityRevision(entities[id], name, seededAt) by {
      SeedRevisionOf(entities, seededAt, id);
    }
  }

  lemma SeedRevisionOf(entities: map<string, Entity>, seededAt: int, id: string)
    requires id in entities
    ensures SeedName(id, "") in SeedEntityRevisions(entities, seededAt)
    ensures SeedEntityRevisions(entities, seededAt)[SeedName(id, "")] == SeedEntityRevision(entities[id], SeedName(id, ""), seededAt)
  {
  }

  /** A read as of T finds no seed revision of an entity that was last changed after T. */
  lemma SeedIsLate(s: State, id: string, seededAt: int, at: int)
    requires KeysMatch(s) && id in s.entities && at < s.entities[id].updatedAt && s.entities[id].updatedAt != UNSET
    requires LatestEntityRevision(s.entityRevisions, id, at).None?
    ensures LatestEntityRevision(Seed(s, seededAt).entityRevisions, id, at).None?
  {
    hide LatestEntityRevision, SeedEntityRevisions, InitialRevisions, CurrentRevisions;
    var revs := Seed(s, seededAt).entityRevisions;
    UnrecordedMeans(s.entityRevisions, id, at);
    UnrecordedMeans(revs, id, at);
    forall rid | rid in revs && revs[rid].entityId == id
      ensures at < revs[rid].txTime
    {
      if rid !in s.entityRevisions {
        SeedStamps(s.entities, seededAt, rid);
      }
    }
  }

  lemma IdIsKey(s: State, id: string)
    requires KeysMatch(s) && id in s.entities
    ensures s.entities[id].id == id
  {
  }

  lemma SeedKeepsEntities(s: State, at: int)
    ensures Seed(s, at).entities == s.entities
  {
  }

  lemma ShownRebuilt(s: State, id: string, at: int, filter: TemporalFilter)
    requires id in s.entities && s.entities[id].id == id && s.entities[id].createdAt <= at < s.entities[id].updatedAt
    requires LatestEntityRevision(s.entityRevisions, id, at).None?
    requires EntityHistory.RebuiltAt(s.entities[id], at).Some?
    ensures var shown := EntitiesAt(s, filter.(asOf := Some(at)));
            id in shown && shown[id] == EntityHistory.RebuiltAt(s.entities[id], at).value
  {
    hide LatestEntityRevision, EntityHistory.RebuiltAt;
  }

  /** An entity that was updated any number of times before the revision log existed, each
      time later than before, is shown after the seed, as of every instant before its last
      update, as it was at that instant. */
  lemma OldEntitiesAreRebuilt(s: State, id: string, seededAt: int, created: Entity, writes: seq<EntityHistory.Update>,
                              at: int, filter: TemporalFilter)
    requires KeysMatch(s) && id in s.entities && s.entities[id] == EntityHistory.Reloaded(EntityHistory.Written(created, writes))
    requires History !in created.metadata && EntityHistory.Ascending(writes) && writes != []
    requires created.createdAt <= at < writes[|writes| - 1].now && writes[|writes| - 1].now != UNSET
    requires LatestEntityRevision(s.entityRevisions, id, at).None?
    ensures var shown := EntitiesAt(Seed(s, seededAt), filter.(asOf := Some(at)));
            id in shown && shown[id] == Historyless(EntityHistory.VersionBy(created, writes, at))
  {
    hide LatestEntityRevision, EntityHistory.RebuiltAt, EntityHistory.Written, EntityHistory.Ascending, EntityHistory.VersionBy,
         EntityHistory.Parsed, Historyless, Seed, KeysMatch, EntitiesAt;
    EntityHistory.WrittenKeeps(created, writes);
    IdIsKey(s, id);
    SeedIsLate(s, id, seededAt, at);
    SeedKeepsEntities(s, seededAt);
    EntityHistory.RebuildsThePast(created, writes, at);
    ShownRebuilt(Seed(s, seededAt), id, at, filter);
  }

  // ----- runs -----

  ghost predicate ForwardClock(s: State, d: Derivation, events: seq<Event>) {
    ClockOk(events) &&
    forall i :: 0 <= i < |events| ==> AllUpto(Run(s, d, events[..i]), events[i].now - 1)
  }

  lemma {:induction false} ForwardRun(s: State, d: Derivation, events: seq<Event>)
    requires Inv(s) && EntitiesOrdered(s.entityRevisions) && ForwardClock(s, d, events)
    ensures EntitiesOrdered(Run(s, d, events).entityRevisions)
  {
    hide Inv, EntitiesOrdered, AllUpto, Step;
    if events != [] {
      var n := |events| - 1;
      forall i | 0 <= i < n
        ensures AllUpto(Run(s, d, events[..n][..i]), events[..n][i].now - 1)
      {
        assert events[..n][..i] == events[..i];
      }
      ForwardRun(s, d, events[..n]);
      RunKeepsInv(s, d, events[..n]);
      ForwardStep(Run(s, d, events[..n]), d, events[n].op, events[n].now);
    }
  }

  /** Mutations read after T leave a cut as of T alone, however many there are. */
  lemma {:induction false} LaterRunKeepsPast(s: State, d: Derivation, events: seq<Event>, filter: TemporalFilter)
    requires Inv(s) && ClockOk(events) && filter.asOf.Some?
    requires forall i :: 0 <= i < |events| ==> filter.asOf.value < events[i].now
    ensures CutAt(Run(s, d, events), filter) == CutAt(s, filter)
  {
    hide Inv, CutAt, Step;
    if events != [] {
      var n := |events| - 1;
      LaterRunKeepsPast(s, d, events[..n], filter);
      RunKeepsInv(s, d, events[..n]);
      MutationKeepsPast(Run(s, d, events[..n]), d, events[n].op, events[n].now, filter);
    }
  }

  lemma {:induction false} RunSplits(s: State, d: Derivation, events: seq<Event>, k: nat)
    requires k <= |events|
    ensures Run(s, d, events) == Run(Run(s, d, events[..k]), d, events[k..])
  {
    hide Step;
    if k == |events| {
      assert events[..k] == events;
    } else {
      var n := |events| - 1;
      assert events[..n][..k] == events[..k];
      assert events[k..][..|events[k..]| - 1] == events[..n][k..];
      RunSplits(s, d, events[..n], k);
    }
  }

  /** Time-travel fidelity. Let every clock reading be later than every stamp stored
      before it, and let k mutations precede T. Then whatever ran afterwards, a read
      as of T sees exactly the live state right after those k mutations. */
  lemma Fidelity(s: State, d: Derivation, events: seq<Event>, k: nat, at: int, filter: TemporalFilter)
    requires Inv(s) && EntitiesOrdered(s.entityRevisions) && ForwardClock(s, d, events)
    requires k <= |events| && filter.asOf.None?
    requires AllUpto(Run(s, d, events[..k]), at)
    requires forall j :: k <= j < |events| ==> at < events[j].now
    ensures CutAt(Run(s, d, events), filter.(asOf := Some(at))) == Plain(CutAt(Run(s, d, events[..k]), filter))
  {
    hide Inv, CutAt, Step, AllUpto, EntitiesOrdered;
    var front := events[..k];
    assert ForwardClock(s, d, front) by {
      forall i | 0 <= i < |front|
        ensures AllUpto(Run(s, d, front[..i]), front[i].now - 1)
      {
        assert front[..i] == events[..i];
      }
    }
    ForwardRun(s, d, front);
    RunKeepsInv(s, d, front);
    CutAtTheTop(Run(s, d, front), at, filter);
    RunSplits(s, d, events, k);
    LaterRunKeepsPast(Run(s, d, front), d, events[k..], filter.(asOf := Some(at)));
  }

  ghost predicate Increasing(events: seq<Event>) {
    forall i, j :: 0 <= i < j < |events| ==> events[i].now < events[j].now
  }

  lemma ForwardExtends(s: State, d: Derivation, events: seq<Event>)
    requires events != [] && ClockOk(events) && ForwardClock(s, d, events[..|events| - 1])
    requires AllUpto(Run(s, d, events[..|events| - 1]), events[|events| - 1].now - 1)
    ensures ForwardClock(s, d, events)
  {
    hide AllUpto, Step, Run;
    var n := |events| - 1;
    var front := events[..n];
    forall i | 0 <= i < |events|
      ensures AllUpto(Run(s, d, events[..i]), events[i].now - 1)
    {
      if i < n {
        assert events[..i] == front[..i];
        assert front[i] == events[i];
      }
    }
  }

  lemma UptoLater(s: State, a: int, b: int)
    requires AllUpto(s, a) && a <= b
    ensures AllUpto(s, b)
  {
  }

  lemma {:induction false} IncreasingIsForward(s: State, d: Derivation, events: seq<Event>)
    requires Inv(s) && EntitiesOrdered(s.entityRevisions) && ClockOk(events) && Increasing(events)
    requires events != [] ==> AllUpto(s, events[0].now - 1)
    ensures ForwardClock(s, d, events)
    ensures events != [] ==> AllUpto(Run(s, d, events), events[|events| - 1].now)
  {
    hide Inv, EntitiesOrdered, Step, AllUpto;
    if events != [] {
      var n := |events| - 1;
      var front := events[..n];
      IncreasingIsForward(s, d, front);
      ForwardRun(s, d, front);
      RunKeepsInv(s, d, front);
      if n > 0 {
        UptoLater(Run(s, d, front), front[n - 1].now, events[n].now - 1);
      }
      ForwardStep(Run(s, d, front), d, events[n].op, events[n].now);
      ForwardExtends(s, d, events);
    }
  }

  function CountUpto(events: seq<Event>, at: int): (k: nat)
    ensures k <= |events|
  {
    if events == [] || events[0].now > at then 0 else 1 + CountUpto(events[1..], at)
  }

  lemma {:induction false} CountSplits(events: seq<Event>, at: int)
    requires Increasing(events)
    ensures var k := CountUpto(events, at);
            (forall j :: 0 <= j < k ==> events[j].now <= at) && (forall j :: k <= j < |events| ==> events[j].now > at)
  {
    if events != [] && events[0].now <= at {
      CountSplits(events[1..], at);
    }
  }

  /** No instant splits a mutation. On a fresh database whose clock reads strictly
      later each time, a read as of any instant is a read of the live state between
      two whole mutations, so a batch becomes visible all at once. */
  lemma NoCutSplitsAMutation(d: Derivation, seededAt: int, events: seq<Event>, at: int, filter: TemporalFilter)
    requires ClockOk(events) && Increasing(events) && filter.asOf.None?
    ensures CutAt(Run(Seeded(seededAt), d, events), filter.(asOf := Some(at))) ==
            Plain(CutAt(Run(Seeded(seededAt), d, events[..CountUpto(events, at)]), filter))
  {
    hide Inv, CutAt, EntitiesOrdered, Step, AllUpto, Seeded, Run;
    var s := Seeded(seededAt);
    var k := CountUpto(events, at);
    FreshDatabase(seededAt);
    CountSplits(events, at);
    IncreasingIsForward(s, d, events);
    UptoLast(s, d, events, k, at);
    Fidelity(s, d, events, k, at, filter);
  }

  lemma FreshDatabase(seededAt: int)
    ensures Inv(Seeded(seededAt)) && EntitiesOrdered(Seeded(seededAt).entityRevisions)
    ensures forall at :: AllUpto(Seeded(seededAt), at)
  {
    SeededInv(seededAt);
    hide Inv, Seed;
  }

  lemma UptoLast(s: State, d: Derivation, events: seq<Event>, k: nat, at: int)
    requires Inv(s) && EntitiesOrdered(s.entityRevisions) && ClockOk(events) && Increasing(events)
    requires (forall bound :: AllUpto(s, bound)) && k <= |events| && forall j :: 0 <= j < k ==> events[j].now <= at
    ensures AllUpto(Run(s, d, events[..k]), at)
  {
    hide Inv, EntitiesOrdered, Step;
    IncreasingIsForward(s, d, events[..k]);
  }
}
