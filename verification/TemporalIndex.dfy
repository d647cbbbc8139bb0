/** The query-local index of newest revisions (pkg/yeoul/temporal_index.go). */
module TemporalIndex {
  import opened Wrappers
  import opened Text
  import opened Identity
  import opened Records
  import opened EngineSpec
  import opened Invariants
  import opened Cuts

  function Lookup<V>(m: map<string, V>, id: string): Option<V> {
    if id in m then Some(m[id]) else None
  }

  /** Extending a log by one revision moves its newest revision exactly when the
      extension comes after it. */
  lemma NewestStep(log: map<string, int>, newest: string, rid: string, tx: int)
    requires IsNewest(log, newest) && rid !in log
    ensures IsNewest(log[rid := tx], if ComesAfter(rid, tx, newest, log[newest]) then rid else newest)
  {
    hide RevisionOrder;
    var log' := log[rid := tx];
    ComesAfterIsStrictTotal(rid, tx, newest, log[newest], rid, tx);
    forall other | other in log && other != newest
      ensures ComesAfter(rid, tx, newest, log[newest]) ==> ComesAfter(rid, tx, other, log[other])
    {
      ComesAfterIsStrictTotal(rid, tx, newest, log[newest], other, log[other]);
    }
  }

  ghost predicate FactsKeyed(log: map<string, FactRevision>) {
    forall rid :: rid in log ==> log[rid].id == rid
  }

  ghost predicate EntitiesKeyed(log: map<string, EntityRevision>) {
    forall rid :: rid in log ==> log[rid].id == rid
  }

  /** `found` holds the newest of a fact's scanned revisions up to `at`. */
  ghost predicate FactScanned(log: map<string, FactRevision>, found: map<string, FactRevision>, at: int, id: string) {
    if id in found then
      found[id].id in log && log[found[id].id] == found[id] && IsNewest(FactLogAt(log, id, at), found[id].id)
    else FactLogAt(log, id, at) == map[]
  }

  ghost predicate EntityScanned(log: map<string, EntityRevision>, found: map<string, EntityRevision>, at: int, id: string) {
    if id in found then
      found[id].id in log && log[found[id].id] == found[id] && IsNewest(EntityLogAt(log, id, at), found[id].id)
    else EntityLogAt(log, id, at) == map[]
  }

  ghost predicate FactsScanned(log: map<string, FactRevision>, found: map<string, FactRevision>, at: int) {
    forall id :: FactScanned(log, found, at, id)
  }

  ghost predicate EntitiesScanned(log: map<string, EntityRevision>, found: map<string, EntityRevision>, at: int) {
    forall id :: EntityScanned(log, found, at, id)
  }

  /** One step of the rebuild loop. */
  function NoteFact(found: map<string, FactRevision>, r: FactRevision, at: int): map<string, FactRevision> {
    if r.txTime > at then found
    else if r.factId !in found || ComesAfter(r.id, r.txTime, found[r.factId].id, found[r.factId].txTime)
    then found[r.factId := r] else found
  }

  function NoteEntity(found: map<string, EntityRevision>, r: EntityRevision, at: int): map<string, EntityRevision> {
    if r.txTime > at then found
    else if r.entityId !in found || ComesAfter(r.id, r.txTime, found[r.entityId].id, found[r.entityId].txTime)
    then found[r.entityId := r] else found
  }

  lemma NoteFactOther(log: map<string, FactRevision>, found: map<string, FactRevision>, r: FactRevision, at: int, id: string)
    requires FactScanned(log, found, at, id) && r.id !in log && (id != r.factId || r.txTime > at)
    ensures FactScanned(log[r.id := r], NoteFact(found, r, at), at, id)
  {
    hide ComesAfter, IsNewest;
    assert FactLogAt(log[r.id := r], id, at) == FactLogAt(log, id, at);
  }

  lemma NoteFactOwn(log: map<string, FactRevision>, found: map<string, FactRevision>, r: FactRevision, at: int)
    requires FactScanned(log, found, at, r.factId) && r.id !in log && r.txTime <= at
    ensures FactScanned(log[r.id := r], NoteFact(found, r, at), at, r.factId)
  {
    hide ComesAfter, IsNewest;
    var id := r.factId;
    var before := FactLogAt(log, id, at);
    assert FactLogAt(log[r.id := r], id, at) == before[r.id := r.txTime];
    if id in found {
      InLog(before, found[id].id);
      NewestStep(before, found[id].id, r.id, r.txTime);
    } else {
      OnlyIsNewest(r.id, r.txTime);
    }
  }

  lemma NoteFactScans(log: map<string, FactRevision>, found: map<string, FactRevision>, r: FactRevision, at: int)
    requires FactsScanned(log, found, at) && r.id !in log
    ensures FactsScanned(log[r.id := r], NoteFact(found, r, at), at)
  {
    hide FactScanned, NoteFact;
    var log', found' := log[r.id := r], NoteFact(found, r, at);
    forall id
      ensures FactScanned(log', found', at, id)
    {
      assert FactScanned(log, found, at, id);
      if id == r.factId && r.txTime <= at {
        NoteFactOwn(log, found, r, at);
      } else {
        NoteFactOther(log, found, r, at, id);
      }
    }
  }

  lemma NoteEntityOther(log: map<string, EntityRevision>, found: map<string, EntityRevision>, r: EntityRevision, at: int, id: string)
    requires EntityScanned(log, found, at, id) && r.id !in log && (id != r.entityId || r.txTime > at)
    ensures EntityScanned(log[r.id := r], NoteEntity(found, r, at), at, id)
  {
    hide ComesAfter, IsNewest;
    assert EntityLogAt(log[r.id := r], id, at) == EntityLogAt(log, id, at);
  }

  lemma NoteEntityOwn(log: map<string, EntityRevision>, found: map<string, EntityRevision>, r: EntityRevision, at: int)
    requires EntityScanned(log, found, at, r.entityId) && r.id !in log && r.txTime <= at
    ensures EntityScanned(log[r.id := r], NoteEntity(found, r, at), at, r.entityId)
  {
    hide ComesAfter, IsNewest;
    var id := r.entityId;
    var before := EntityLogAt(log, id, at);
    assert EntityLogAt(log[r.id := r], id, at) == before[r.id := r.txTime];
    if id in found {
      InLog(before, found[id].id);
      NewestStep(before, found[id].id, r.id, r.txTime);
    } else {
      OnlyIsNewest(r.id, r.txTime);
    }
  }

  lemma NoteEntityScans(log: map<string, EntityRevision>, found: map<string, EntityRevision>, r: EntityRevision, at: int)
    requires EntitiesScanned(log, found, at) && r.id !in log
    ensures EntitiesScanned(log[r.id := r], NoteEntity(found, r, at), at)
  {
    hide EntityScanned, NoteEntity;
    var log', found' := log[r.id := r], NoteEntity(found, r, at);
    forall id
      ensures EntityScanned(log', found', at, id)
    {
      assert EntityScanned(log, found, at, id);
      if id == r.entityId && r.txTime <= at {
        NoteEntityOwn(log, found, r, at);
      } else {
        NoteEntityOther(log, found, r, at, id);
      }
    }
  }

  lemma InLog(log: map<string, int>, newest: string)
    requires IsNewest(log, newest)
    ensures newest in log
  {
    hide ComesAfter;
  }

  lemma OnlyIsNewest(rid: string, tx: int)
    ensures IsNewest(map[rid := tx], rid)
  {
    hide ComesAfter;
  }

  /** A finished scan answers with the naive maximum. */
  lemma ScanAnswersFact(log: map<string, FactRevision>, found: map<string, FactRevision>, at: int, id: string)
    requires FactsScanned(log, found, at)
    ensures Lookup(found, id) == LatestFactRevision(log, id, at)
  {
    hide ComesAfter;
    assert FactScanned(log, found, at, id);
    if id in found {
      NewestUnique(FactLogAt(log, id, at), found[id].id, Newest(FactLogAt(log, id, at)).value);
    }
  }

  lemma ScanAnswersEntity(log: map<string, EntityRevision>, found: map<string, EntityRevision>, at: int, id: string)
    requires EntitiesScanned(log, found, at)
    ensures Lookup(found, id) == LatestEntityRevision(log, id, at)
  {
    hide ComesAfter;
    assert EntityScanned(log, found, at, id);
    if id in found {
      NewestUnique(EntityLogAt(log, id, at), found[id].id, Newest(EntityLogAt(log, id, at)).value);
    }
  }

  class TemporalIndex {
    /** The engine's logs, which a reader sees unchanged under the read lock. */
    const factLog: map<string, FactRevision>
    const entityLog: map<string, EntityRevision>

    var factAt: int
    var factBuilt: bool
    var factRevisions: map<string, FactRevision>
    var entityAt: int
    var entityBuilt: bool
    var entityRevisions: map<string, EntityRevision>

    ghost predicate Valid()
      reads this
    {
      FactsKeyed(factLog) && EntitiesKeyed(entityLog) &&
      (factBuilt ==> FactsScanned(factLog, factRevisions, factAt)) &&
      (entityBuilt ==> EntitiesScanned(entityLog, entityRevisions, entityAt))
    }

    constructor (s: State)
      requires FactsKeyed(s.factRevisions) && EntitiesKeyed(s.entityRevisions)
      ensures Valid() && factLog == s.factRevisions && entityLog == s.entityRevisions
    {
      factLog, entityLog := s.factRevisions, s.entityRevisions;
      factAt, factBuilt, factRevisions := 0, false, map[];
      entityAt, entityBuilt, entityRevisions := 0, false, map[];
    }

    method RebuildFacts(at: int)
      requires Valid()
      modifies `factAt, `factBuilt, `factRevisions
      ensures Valid() && factBuilt && factAt == at
    {
      hide FactsScanned, EntitiesScanned, NoteFact;
      var found: map<string, FactRevision> := map[];
      ghost var scanned: map<string, FactRevision> := map[];
      NothingScanned(at);
      var todo := factLog.Keys;
      while todo != {}
        invariant todo <= factLog.Keys && FactsScanned(scanned, found, at)
        invariant scanned == map rid | rid in factLog && rid !in todo :: factLog[rid]
        decreases |todo|
      {
        var rid :| rid in todo;
        NoteFactScans(scanned, found, factLog[rid], at);
        found := NoteFact(found, factLog[rid], at);
        scanned := scanned[rid := factLog[rid]];
        todo := todo - {rid};
      }
      assert scanned == factLog;
      factAt, factBuilt, factRevisions := at, true, found;
    }

    method RebuildEntities(at: int)
      requires Valid()
      modifies `entityAt, `entityBuilt, `entityRevisions
      ensures Valid() && entityBuilt && entityAt == at
    {
      hide FactsScanned, EntitiesScanned, NoteEntity;
      var found: map<string, EntityRevision> := map[];
      ghost var scanned: map<string, EntityRevision> := map[];
      NothingScanned(at);
      var todo := entityLog.Keys;
      while todo != {}
        invariant todo <= entityLog.Keys && EntitiesScanned(scanned, found, at)
        invariant scanned == map rid | rid in entityLog && rid !in todo :: entityLog[rid]
        decreases |todo|
      {
        var rid :| rid in todo;
        NoteEntityScans(scanned, found, entityLog[rid], at);
        found := NoteEntity(found, entityLog[rid], at);
        scanned := scanned[rid := entityLog[rid]];
        todo := todo - {rid};
      }
      assert scanned == entityLog;
      entityAt, entityBuilt, entityRevisions := at, true, found;
    }

    /** Asked for any sequence of instants, and whatever order the log was scanned in,
        the index answers with the newest revision of the log at that instant. */
    method LatestFactRevisionAt(factId: string, at: int) returns (r: Option<FactRevision>)
      requires Valid()
      modifies this
      ensures Valid() && r == LatestFactRevision(factLog, factId, at)
    {
      if !factBuilt || factAt != at {
        RebuildFacts(at);
      }
      ScanAnswersFact(factLog, factRevisions, at, factId);
      return Lookup(factRevisions, factId);
    }

    method LatestEntityRevisionAt(entityId: string, at: int) returns (r: Option<EntityRevision>)
      requires Valid()
      modifies this
      ensures Valid() && r == LatestEntityRevision(entityLog, entityId, at)
    {
      if !entityBuilt || entityAt != at {
        RebuildEntities(at);
      }
      ScanAnswersEntity(entityLog, entityRevisions, at, entityId);
      return Lookup(entityRevisions, entityId);
    }
  }

  lemma NothingScanned(at: int)
    ensures FactsScanned(map[], map[], at) && EntitiesScanned(map[], map[], at)
  {
  }

  /** In every reachable state, for any clock, the newest revision of a fact over the
      whole log is the last one appended, and it converts back to the current fact. */
  lemma NewestIsLastAppended(s: State, id: string, at: int)
    requires Inv(s) && id in s.facts && s.facts[id].updatedAt <= at
    ensures var newest := Newest(FactLogAt(s.factRevisions, id, at));
            newest.Some? && ToFact(s.factRevisions[newest.value]) == s.facts[id] &&
            LastOf(s.factRevisions, newest.value)
  {
    hide IdsUnique, RevisionOrder, IdText, LifeOk, RefsOk, EntityLog, PhasesOk, LivesOk, StampsOk, RevisionOk, Less;
    assert Current(s.factRevisions, s.facts[id]) && s.facts[id].id == id;
    var rid :| LastOf(s.factRevisions, rid) && ToFact(s.factRevisions[rid]) == s.facts[id];
    assert RevisionOk(s.facts, rid, s.factRevisions[rid], s.sequence);
    StampMatches(s, rid);
    var log := FactLogAt(s.factRevisions, id, at);
    assert rid in log;
    assert IsNewest(log, rid);
    NewestUnique(log, rid, Newest(log).value);
  }

  lemma StampMatches(s: State, rid: string)
    requires rid in s.factRevisions && RevisionOk(s.facts, rid, s.factRevisions[rid], s.sequence)
    ensures s.factRevisions[rid].txTime == s.factRevisions[rid].updatedAt
  {
    hide Generated;
  }
}
