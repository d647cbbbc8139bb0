/** Fact compaction (cmd/yeoul/merge.go, cmd/yeoul/admin_cmd.go): find classes of
    identical active facts, keep the best of each, retract the rest. */
module Compaction {
  import opened Wrappers
  import opened Text
  import opened Sorting
  import opened Identity
  import opened Records
  import opened EngineSpec
  import opened Invariants
  import Encoding
  import opened Storage
  import AnyState
  import E = Engine

  // ----- identity -----

  /** Everything a fact claims. The support list and the metadata are encoded texts. */
  datatype FactIdentity = FactIdentity(
    spaceId: string, predicate_: string, subjectId: string, objectId: string, valueText: string,
    supporting: string, validFrom: int, validTo: int, metadata: string)

  ghost function IdentityOf(p: Encoding.Print, fact: Fact): FactIdentity {
    FactIdentity(fact.spaceId, fact.predicate_, fact.subjectId, fact.objectId, fact.valueText,
                 Encoding.EncodeParts(Sort(fact.support, Less)), fact.validFrom, fact.validTo,
                 Encoding.MetadataText(fact.metadata, p))
  }

  /** factIdentityOf */
  method FactIdentityOf(p: Encoding.Print, fact: Fact) returns (key: FactIdentity)
    ensures key == IdentityOf(p, fact)
  {
    hide Sort, Encoding.MetadataText;
    var supporting := Encoding.EncodeIdentityParts(Sort(fact.support, Less));
    var metadata := Encoding.CanonicalMetadata(fact.metadata, p);
    key := FactIdentity(fact.spaceId, fact.predicate_, fact.subjectId, fact.objectId, fact.valueText, supporting,
                        fact.validFrom, fact.validTo, metadata);
  }

  /** Two facts share an identity exactly when they make the same claim, with the same
      metadata, on the same support. */
  lemma IdentityMeans(p: Encoding.Print, a: Fact, b: Fact)
    requires Encoding.Injective(p)
    ensures IdentityOf(p, a) == IdentityOf(p, b) <==>
            a.spaceId == b.spaceId && a.predicate_ == b.predicate_ && a.subjectId == b.subjectId &&
            a.objectId == b.objectId && a.valueText == b.valueText && a.validFrom == b.validFrom && a.validTo == b.validTo &&
            Encoding.Same(Obj(a.metadata), Obj(b.metadata)) && Sort(a.support, Less) == Sort(b.support, Less)
  {
    hide Sort, Encoding.MetadataText, Encoding.Same, Encoding.Injective;
    Encoding.MetadataSame(a.metadata, b.metadata, p);
    if Encoding.EncodeParts(Sort(a.support, Less)) == Encoding.EncodeParts(Sort(b.support, Less)) {
      Encoding.EncodePartsInjective(Sort(a.support, Less), Sort(b.support, Less));
    }
  }

  /** The active facts of one identity. */
  ghost function ClassOf(facts: map<string, Fact>, p: Encoding.Print, key: FactIdentity): set<string> {
    set id | id in facts && facts[id].status == Active && IdentityOf(p, facts[id]) == key
  }

  // ----- the survivor -----

  /** factSurvivorBefore: confidence, then the later observation, then the lower ID. */
  predicate Better(a: Fact, b: Fact) {
    if a.confidence != b.confidence then a.confidence > b.confidence
    else if a.observedAt != b.observedAt then a.observedAt > b.observedAt
    else Less(a.id, b.id)
  }

  lemma BetterIsStrict(a: Fact, b: Fact, c: Fact)
    ensures !Better(a, a)
    ensures Better(a, b) && Better(b, c) ==> Better(a, c)
    ensures a.id != b.id ==> Better(a, b) || Better(b, a)
  {
    LessIrreflexive(a.id);
    LessTotal(a.id, b.id);
    if Less(a.id, b.id) && Less(b.id, c.id) {
      LessTransitive(a.id, b.id, c.id);
    }
  }

  /** preferFactSurvivor */
  method PreferSurvivor(facts: seq<Fact>) returns (best: nat)
    requires facts != [] && forall i, j :: 0 <= i < j < |facts| ==> facts[i].id != facts[j].id
    ensures best < |facts| && forall j :: 0 <= j < |facts| && j != best ==> Better(facts[best], facts[j])
  {
    hide Better;
    best := 0;
    for i := 1 to |facts|
      invariant best < i
      invariant forall j :: 0 <= j < i && j != best ==> Better(facts[best], facts[j])
    {
      BetterIsStrict(facts[i], facts[best], facts[i]);
      BetterIsStrict(facts[best], facts[i], facts[i]);
      if Better(facts[i], facts[best]) {
        forall j | 0 <= j < i && j != best
          ensures Better(facts[i], facts[j])
        {
          BetterIsStrict(facts[i], facts[best], facts[j]);
        }
        best := i;
      }
    }
  }

  // ----- the plan -----

  datatype FactCandidate = FactCandidate(targetId: string, sourceIds: seq<string>)

  ghost predicate BestOf(facts: map<string, Fact>, members: set<string>, id: string)
    requires members <= facts.Keys
  {
    id in members && forall other :: other in members && other != id ==> Better(facts[id], facts[other])
  }

  /** A candidate keeps the best member of a class of several and names the others. */
  ghost predicate ForClass(facts: map<string, Fact>, members: set<string>, c: FactCandidate)
    requires members <= facts.Keys
  {
    |members| >= 2 && BestOf(facts, members, c.targetId) && forall id :: id in c.sourceIds <==> id in members && id != c.targetId
  }

  predicate TargetBefore(a: FactCandidate, b: FactCandidate) {
    Less(a.targetId, b.targetId)
  }

  /** The compaction plan: one candidate for each class of several members. */
  ghost predicate IsPlan(facts: map<string, Fact>, p: Encoding.Print, plan: seq<FactCandidate>) {
    Sorted(plan, TargetBefore) &&
    (forall c :: c in plan ==> Sorted(c.sourceIds, Less) && exists key :: Plans(facts, p, key, c)) &&
    (forall key :: |ClassOf(facts, p, key)| >= 2 ==> exists c :: c in plan && Plans(facts, p, key, c))
  }

  ghost predicate Plans(facts: map<string, Fact>, p: Encoding.Print, key: FactIdentity, c: FactCandidate) {
    ForClass(facts, ClassOf(facts, p, key), c)
  }

  type Groups = map<FactIdentity, seq<Fact>>

  ghost predicate GroupOk(facts: map<string, Fact>, members: set<string>, group: seq<Fact>)
    requires members <= facts.Keys
  {
    (forall f :: f in group <==> f.id in members && facts[f.id] == f) &&
    (forall i, j :: 0 <= i < j < |group| ==> group[i].id != group[j].id)
  }

  /** The members of a class among the facts visited so far. */
  ghost function Visited(facts: map<string, Fact>, p: Encoding.Print, key: FactIdentity, done: set<string>): set<string> {
    ClassOf(facts, p, key) * done
  }

  function GroupIn(groups: Groups, key: FactIdentity): seq<Fact> {
    if key in groups then groups[key] else []
  }

  ghost predicate GroupsOk(facts: map<string, Fact>, p: Encoding.Print, done: set<string>, groups: Groups) {
    forall key :: GroupOk(facts, Visited(facts, p, key, done), GroupIn(groups, key))
  }

  lemma GroupFact(facts: map<string, Fact>, p: Encoding.Print, done: set<string>, groups: Groups, id: string)
    requires GroupsOk(facts, p, done, groups) && id in facts && id !in done && facts[id].id == id
    ensures var key := IdentityOf(p, facts[id]);
            GroupsOk(facts, p, done + {id},
              if facts[id].status == Active then groups[key := GroupIn(groups, key) + [facts[id]]] else groups)
  {
    hide IdentityOf;
    var own := IdentityOf(p, facts[id]);
    var active := facts[id].status == Active;
    var groups' := if active then groups[own := GroupIn(groups, own) + [facts[id]]] else groups;
    forall key
      ensures GroupOk(facts, Visited(facts, p, key, done + {id}), GroupIn(groups', key))
    {
      assert GroupOk(facts, Visited(facts, p, key, done), GroupIn(groups, key));
      assert Visited(facts, p, key, done + {id}) ==
             Visited(facts, p, key, done) + (if active && key == own then {id} else {});
      if active && key == own {
        AppendToGroup(facts, Visited(facts, p, key, done), GroupIn(groups, key), id);
      }
    }
  }

  lemma AppendToGroup(facts: map<string, Fact>, members: set<string>, group: seq<Fact>, id: string)
    requires members <= facts.Keys && id in facts && id !in members && facts[id].id == id && GroupOk(facts, members, group)
    ensures GroupOk(facts, members + {id}, group + [facts[id]])
  {
    forall i | 0 <= i < |group|
      ensures group[i].id != id
    {
      assert group[i] in group;
    }
  }

  /** The grouping loop of buildFactDuplicateCandidates. */
  method GroupFacts(facts: map<string, Fact>, p: Encoding.Print) returns (groups: Groups)
    requires forall id :: id in facts ==> facts[id].id == id
    ensures GroupsOk(facts, p, facts.Keys, groups)
  {
    groups := map[];
    var todo := facts.Keys;
    ghost var done := {};
    assert GroupsOk(facts, p, done, groups) by {
      NothingGrouped(facts, p);
    }
    hide GroupsOk, IdentityOf;
    while todo != {}
      invariant todo <= facts.Keys && done == facts.Keys - todo && GroupsOk(facts, p, done, groups)
      decreases |todo|
    {
      var id :| id in todo;
      GroupFact(facts, p, done, groups, id);
      if facts[id].status == Active {
        var key := FactIdentityOf(p, facts[id]);
        groups := groups[key := GroupIn(groups, key) + [facts[id]]];
      }
      todo := todo - {id};
      done := done + {id};
    }
    assert done == facts.Keys;
  }

  lemma NothingGrouped(facts: map<string, Fact>, p: Encoding.Print)
    ensures GroupsOk(facts, p, {}, map[])
  {
    hide IdentityOf;
  }

  lemma {:induction false} GroupSize(facts: map<string, Fact>, members: set<string>, group: seq<Fact>)
    requires members <= facts.Keys && GroupOk(facts, members, group)
    requires forall id :: id in members ==> facts[id].id == id
    ensures |group| == |members|
    decreases |group|
  {
    if group == [] {
      assert forall id :: id in members ==> facts[id] in group;
      assert members == {};
    } else {
      var n := |group| - 1;
      var last := group[n];
      assert last in group;
      forall f
        ensures f in group[..n] <==> f.id in members - {last.id} && facts[f.id] == f
      {
        assert f in group <==> f in group[..n] || f == last;
      }
      GroupSize(facts, members - {last.id}, group[..n]);
    }
  }

  /** One class becomes one candidate. */
  method CandidateOf(facts: map<string, Fact>, ghost members: set<string>, group: seq<Fact>) returns (c: FactCandidate)
    requires members <= facts.Keys && GroupOk(facts, members, group) && |group| >= 2
    requires forall id :: id in members ==> facts[id].id == id
    ensures ForClass(facts, members, c) && Sorted(c.sourceIds, Less)
  {
    hide Better, Less;
    var best := PreferSurvivor(group);
    GroupSize(facts, members, group);
    var ids := set i | 0 <= i < |group| && i != best :: group[i].id;
    var sources := SortIds(ids);
    c := FactCandidate(group[best].id, sources);
    assert group[best] in group;
    forall id
      ensures id in ids <==> id in members && id != group[best].id
    {
      if id in members && id != group[best].id {
        assert facts[id] in group;
        var i :| 0 <= i < |group| && group[i] == facts[id];
        assert i != best;
      }
      if id in ids {
        var i :| 0 <= i < |group| && i != best && group[i].id == id;
        assert group[i] in group;
      }
    }
    forall other | other in members && other != c.targetId
      ensures Better(facts[c.targetId], facts[other])
    {
      assert facts[other] in group;
      var i :| 0 <= i < |group| && group[i] == facts[other];
    }
  }

  ghost predicate UnderOwnIds(facts: map<string, Fact>) {
    forall id :: id in facts ==> facts[id].id == id
  }

  /** Two classes never propose the same target, and one class proposes one. */
  lemma OnePlanPerTarget(facts: map<string, Fact>, p: Encoding.Print, j: FactIdentity, k: FactIdentity,
                         a: FactCandidate, b: FactCandidate)
    requires Plans(facts, p, j, a) && Plans(facts, p, k, b) && a.targetId == b.targetId
    ensures j == k
  {
    hide IdentityOf, Better;
  }

  lemma SourcesFixed(facts: map<string, Fact>, members: set<string>, a: FactCandidate, b: FactCandidate)
    requires members <= facts.Keys && ForClass(facts, members, a) && ForClass(facts, members, b)
    requires Sorted(a.sourceIds, Less) && Sorted(b.sourceIds, Less) && UnderOwnIds(facts)
    ensures a == b
  {
    assert a.targetId == b.targetId by {
      BetterIsStrict(facts[a.targetId], facts[b.targetId], facts[a.targetId]);
    }
    LessIsStrict();
    SortedUnique(a.sourceIds, b.sourceIds, Less);
  }

  ghost predicate Collected(facts: map<string, Fact>, p: Encoding.Print, keys: set<FactIdentity>, found: set<FactCandidate>) {
    (forall c :: c in found ==> Sorted(c.sourceIds, Less) && exists key :: key in keys && Plans(facts, p, key, c)) &&
    (forall key :: key in keys && |ClassOf(facts, p, key)| >= 2 ==> exists c :: c in found && Plans(facts, p, key, c))
  }

  lemma CollectOne(facts: map<string, Fact>, p: Encoding.Print, keys: set<FactIdentity>, found: set<FactCandidate>,
                   key: FactIdentity, c: FactCandidate)
    requires Collected(facts, p, keys, found) && Plans(facts, p, key, c) && Sorted(c.sourceIds, Less)
    ensures Collected(facts, p, keys + {key}, found + {c})
  {
    hide Plans, ClassOf, Sorted;
    forall k | k in keys + {key} && |ClassOf(facts, p, k)| >= 2
      ensures exists x :: x in found + {c} && Plans(facts, p, k, x)
    {
      if k == key {
        assert c in found + {c};
      } else {
        var x :| x in found && Plans(facts, p, k, x);
        assert x in found + {c};
      }
    }
  }

  lemma CollectNone(facts: map<string, Fact>, p: Encoding.Print, keys: set<FactIdentity>, found: set<FactCandidate>, key: FactIdentity)
    requires Collected(facts, p, keys, found) && |ClassOf(facts, p, key)| < 2
    ensures Collected(facts, p, keys + {key}, found)
  {
    hide Plans, ClassOf, Sorted;
  }

  lemma GroupMembers(facts: map<string, Fact>, p: Encoding.Print, groups: Groups, key: FactIdentity)
    requires GroupsOk(facts, p, facts.Keys, groups) && UnderOwnIds(facts)
    ensures GroupOk(facts, ClassOf(facts, p, key), GroupIn(groups, key))
    ensures |GroupIn(groups, key)| == |ClassOf(facts, p, key)|
  {
    hide IdentityOf;
    assert Visited(facts, p, key, facts.Keys) == ClassOf(facts, p, key);
    assert GroupOk(facts, Visited(facts, p, key, facts.Keys), GroupIn(groups, key));
    GroupSize(facts, ClassOf(facts, p, key), GroupIn(groups, key));
  }

  /** buildFactDuplicateCandidates */
  method BuildPlan(facts: map<string, Fact>, p: Encoding.Print) returns (plan: seq<FactCandidate>)
    requires UnderOwnIds(facts)
    ensures IsPlan(facts, p, plan)
  {
    hide GroupsOk, IdentityOf, ClassOf, Plans, Collected, GroupOk, ForClass;
    var groups := GroupFacts(facts, p);
    var found: set<FactCandidate> := {};
    var todo := groups.Keys;
    ghost var done := {};
    assert Collected(facts, p, done, found) by {
      NothingCollected(facts, p);
    }
    while todo != {}
      invariant todo <= groups.Keys && done == groups.Keys - todo && Collected(facts, p, done, found)
      decreases |todo|
    {
      var key :| key in todo;
      todo := todo - {key};
      GroupMembers(facts, p, groups, key);
      if |groups[key]| >= 2 {
        MembersStored(facts, p, key);
        var c := CandidateOf(facts, ClassOf(facts, p, key), groups[key]);
        PlansFor(facts, p, key, c);
        CollectOne(facts, p, done, found, key, c);
        found := found + {c};
      } else {
        CollectNone(facts, p, done, found, key);
      }
      done := done + {key};
    }
    assert done == groups.Keys;
    TargetsOrdered(facts, p, done, found);
    plan := SortSet(found, TargetBefore);
    AllCollected(facts, p, groups, found, plan);
  }

  lemma NothingCollected(facts: map<string, Fact>, p: Encoding.Print)
    ensures Collected(facts, p, {}, {})
  {
  }

  lemma MembersStored(facts: map<string, Fact>, p: Encoding.Print, key: FactIdentity)
    ensures ClassOf(facts, p, key) <= facts.Keys
  {
  }

  lemma PlansFor(facts: map<string, Fact>, p: Encoding.Print, key: FactIdentity, c: FactCandidate)
    requires ClassOf(facts, p, key) <= facts.Keys && ForClass(facts, ClassOf(facts, p, key), c)
    ensures Plans(facts, p, key, c)
  {
    hide ForClass, ClassOf;
  }

  lemma TargetsOrdered(facts: map<string, Fact>, p: Encoding.Print, keys: set<FactIdentity>, found: set<FactCandidate>)
    requires UnderOwnIds(facts) && Collected(facts, p, keys, found)
    ensures Strict(TargetBefore)
    ensures forall x, y :: x in found && y in found && x != y ==> TargetBefore(x, y) || TargetBefore(y, x)
  {
    hide Plans, Sorted, Less, UnderOwnIds;
    LessIsStrict();
    forall x, y | x in found && y in found && x != y
      ensures Less(x.targetId, y.targetId) || Less(y.targetId, x.targetId)
    {
      LessTotal(x.targetId, y.targetId);
      if x.targetId == y.targetId {
        var j :| j in keys && Plans(facts, p, j, x);
        var k :| k in keys && Plans(facts, p, k, y);
        OnePlanPerTarget(facts, p, j, k, x, y);
        SamePlan(facts, p, j, x, y);
      }
    }
  }

  lemma SamePlan(facts: map<string, Fact>, p: Encoding.Print, key: FactIdentity, x: FactCandidate, y: FactCandidate)
    requires UnderOwnIds(facts) && Plans(facts, p, key, x) && Plans(facts, p, key, y)
    requires Sorted(x.sourceIds, Less) && Sorted(y.sourceIds, Less)
    ensures x == y
  {
    hide IdentityOf, ForClass;
    SourcesFixed(facts, ClassOf(facts, p, key), x, y);
  }

  lemma AllCollected(facts: map<string, Fact>, p: Encoding.Print, groups: Groups, found: set<FactCandidate>, plan: seq<FactCandidate>)
    requires GroupsOk(facts, p, facts.Keys, groups) && UnderOwnIds(facts)
    requires Collected(facts, p, groups.Keys, found) && Sorted(plan, TargetBefore)
    requires forall c :: c in plan <==> c in found
    ensures IsPlan(facts, p, plan)
  {
    hide Plans, ClassOf, GroupsOk, Less;
    forall key | |ClassOf(facts, p, key)| >= 2
      ensures exists c :: c in plan && Plans(facts, p, key, c)
    {
      GroupMembers(facts, p, groups, key);
      assert key in groups;
      var c :| c in found && Plans(facts, p, key, c);
      assert c in plan;
    }
  }

  // ----- applying the plan -----

  const REASON_PREFIX := "duplicate_of:"

  /** `g` is `f` retracted as a duplicate of the target, its claim untouched. */
  predicate RetractedFor(f: Fact, g: Fact, targetId: string) {
    g == f.(status := Retracted, retractedAt := g.retractedAt, retractionReason := REASON_PREFIX + targetId, updatedAt := g.updatedAt)
  }

  predicate InPlan(plan: seq<FactCandidate>, id: string, c: FactCandidate) {
    c in plan && id in c.sourceIds
  }

  /** The facts after some of the plan's sources were retracted. */
  ghost predicate Applied(before: map<string, Fact>, after: map<string, Fact>, plan: seq<FactCandidate>, done: set<string>) {
    after.Keys == before.Keys &&
    (forall id :: id in before && id !in done ==> after[id] == before[id]) &&
    (forall id :: id in before && id in done ==> exists c :: InPlan(plan, id, c) && RetractedFor(before[id], after[id], c.targetId))
  }

  function SourcesOf(plan: seq<FactCandidate>): set<string> {
    set c, id | c in plan && id in c.sourceIds :: id
  }

  lemma RetractEffect(s: State, d: Derivation, id: string, reason: string, now: int)
    requires id in s.facts && Mutation(s, d, RetractOp(id, reason), now).Ok?
    ensures var after := Mutation(s, d, RetractOp(id, reason), now).value.facts;
            if s.facts[id].status == Retracted then after == s.facts
            else after == s.facts[id := RetractedFact(s.facts[id], reason, now)]
  {
    hide NextFree, AllIds, NewFactRevision;
  }

  lemma ApplyOne(before: map<string, Fact>, facts: map<string, Fact>, facts': map<string, Fact>, plan: seq<FactCandidate>,
                 done: set<string>, id: string, c: FactCandidate, now: int)
    requires Applied(before, facts, plan, done) && id in before && InPlan(plan, id, c)
    requires facts' == if facts[id].status == Retracted then facts
                       else facts[id := RetractedFact(facts[id], REASON_PREFIX + c.targetId, now)]
    requires id !in done ==> before[id].status != Retracted
    ensures Applied(before, facts', plan, done + {id})
  {
    hide InPlan;
    forall x | x in before && x in done + {id}
      ensures exists k :: InPlan(plan, x, k) && RetractedFor(before[x], facts'[x], k.targetId)
    {
      if x in done {
        var k :| InPlan(plan, x, k) && RetractedFor(before[x], facts[x], k.targetId);
        assert RetractedFor(before[x], facts'[x], k.targetId);
      } else {
        assert RetractedFor(before[x], facts'[x], c.targetId);
      }
    }
  }

  lemma SourcesActive(facts: map<string, Fact>, p: Encoding.Print, plan: seq<FactCandidate>, id: string, c: FactCandidate)
    requires IsPlan(facts, p, plan) && InPlan(plan, id, c)
    ensures id in facts && facts[id].status == Active
  {
    hide IdentityOf, Better, Sorted;
    var key :| Plans(facts, p, key, c);
  }

  /** RetractFact for one source. */
  method RetractSource(eng: E.Engine, d: Derivation, ghost before: map<string, Fact>, ghost plan: seq<FactCandidate>,
                       ghost done: set<string>, id: string, c: FactCandidate)
    returns (r: Result<()>)
    requires eng.Valid() && Applied(before, eng.facts, plan, done) && InPlan(plan, id, c)
    requires id in before && before[id].status == Active
    modifies eng, eng.store.Footprint()
    ensures eng.Valid() && Applied(before, eng.facts, plan, if r.Ok? then done + {id} else done)
  {
    hide Inv, Mutation, E.Explained, Applied, InPlan;
    var now: int :| now > 0;
    ghost var s := eng.State();
    r := eng.Mutate(d, RetractOp(id, REASON_PREFIX + c.targetId), now);
    if r.Ok? {
      AppliedKeys(before, s.facts, plan, done);
      RetractEffect(s, d, id, REASON_PREFIX + c.targetId, now);
      ApplyOne(before, s.facts, eng.facts, plan, done, id, c, now);
    }
  }

  /** Some of the IDs were added, in order, and all of them on success. */
  ghost predicate Reached(ids: seq<string>, before: set<string>, after: set<string>, ok: bool) {
    exists n :: 0 <= n <= |ids| && after == before + FirstOf(ids, n) && (ok ==> n == |ids|)
  }

  /** The inner loop: the sources of one candidate. */
  method RetractSources(eng: E.Engine, d: Derivation, ghost before: map<string, Fact>, ghost p: Encoding.Print,
                        ghost plan: seq<FactCandidate>, ghost done0: set<string>, c: FactCandidate)
    returns (r: Result<()>, ghost done: set<string>)
    requires eng.Valid() && Applied(before, eng.facts, plan, done0) && IsPlan(before, p, plan) && c in plan
    modifies eng, eng.store.Footprint()
    ensures eng.Valid() && Applied(before, eng.facts, plan, done)
    ensures Reached(c.sourceIds, done0, done, r.Ok?)
  {
    hide Inv, Seed, IsPlan, Applied, InPlan, FirstOf, Reached;
    done := done0;
    ReachedNone(c.sourceIds, done0);
    for j := 0 to |c.sourceIds|
      invariant eng.Valid() && Applied(before, eng.facts, plan, done) && done == done0 + FirstOf(c.sourceIds, j)
    {
      PlanHas(plan, c, j);
      SourcesActive(before, p, plan, c.sourceIds[j], c);
      ReachedSome(c.sourceIds, done0, j);
      r := RetractSource(eng, d, before, plan, done, c.sourceIds[j], c);
      if r.Err? {
        return;
      }
      done := done + {c.sourceIds[j]};
    }
    r := Ok(());
  }

  /** The apply loop of runAdminCompact: every source is retracted, one mutation each. A
      failure stops the loop and leaves the retractions made so far. */
  method ApplyPlan(eng: E.Engine, d: Derivation, ghost p: Encoding.Print, plan: seq<FactCandidate>)
    returns (r: Result<nat>, ghost done: set<string>)
    requires eng.Valid() && IsPlan(eng.facts, p, plan)
    modifies eng, eng.store.Footprint()
    ensures eng.Valid() && Applied(old(eng.facts), eng.facts, plan, done) && done <= SourcesOf(plan)
    ensures r.Ok? ==> done == SourcesOf(plan) && r.value == |done|
  {
    hide IsPlan, Applied, SourcesOf, Reached, UnderOwnIds, E.Engine.Valid;
    FactsUnderOwnIds(eng);
    ghost var before := eng.facts;
    done := {};
    var retracted: nat := 0;
    NothingApplied(before, plan);
    for i := 0 to |plan|
      invariant eng.Valid() && Applied(before, eng.facts, plan, done) && done == SourcesOf(plan[..i])
      invariant retracted == |done|
    {
      ghost var done0 := done;
      var outcome;
      outcome, done := RetractSources(eng, d, before, p, plan, done, plan[i]);
      ReachedSources(plan, i, done0, done, outcome.Ok?);
      if outcome.Err? {
        return Err(outcome.error), done;
      }
      SourcesCounted(before, p, plan, i);
      retracted := retracted + |plan[i].sourceIds|;
    }
    assert plan[..|plan|] == plan;
    return Ok(retracted), done;
  }

  lemma FactsUnderOwnIds(eng: E.Engine)
    requires eng.Valid()
    ensures UnderOwnIds(eng.facts)
  {
    hide WellKeyed, Seed;
    AnyState.KeyedIsWellKeyed(eng.State());
  }

  function FirstOf(ids: seq<string>, n: nat): set<string>
    requires n <= |ids|
  {
    if n == 0 then {} else FirstOf(ids, n - 1) + {ids[n - 1]}
  }

  lemma {:induction false} FirstOfIs(ids: seq<string>, n: nat)
    requires n <= |ids|
    ensures FirstOf(ids, n) == set id | id in ids[..n]
  {
    if n > 0 {
      FirstOfIs(ids, n - 1);
      assert ids[..n] == ids[..n - 1] + [ids[n - 1]];
    }
  }

  lemma NothingApplied(facts: map<string, Fact>, plan: seq<FactCandidate>)
    ensures Applied(facts, facts, plan, {}) && SourcesOf([]) == {} && plan[..0] == []
  {
  }

  lemma PlanHas(plan: seq<FactCandidate>, c: FactCandidate, j: nat)
    requires c in plan && j < |c.sourceIds|
    ensures InPlan(plan, c.sourceIds[j], c)
  {
  }

  lemma ReachedNone(ids: seq<string>, before: set<string>)
    ensures before + FirstOf(ids, 0) == before
    ensures Reached(ids, before, before + FirstOf(ids, |ids|), true)
  {
  }

  lemma ReachedSome(ids: seq<string>, before: set<string>, j: nat)
    requires j < |ids|
    ensures before + FirstOf(ids, j) + {ids[j]} == before + FirstOf(ids, j + 1)
    ensures Reached(ids, before, before + FirstOf(ids, j), false)
  {
  }

  lemma AppliedKeys(before: map<string, Fact>, after: map<string, Fact>, plan: seq<FactCandidate>, done: set<string>)
    requires Applied(before, after, plan, done)
    ensures after.Keys == before.Keys
  {
  }

  lemma SourcesNext(plan: seq<FactCandidate>, i: nat)
    requires i < |plan|
    ensures SourcesOf(plan[..i + 1]) == SourcesOf(plan[..i]) + FirstOf(plan[i].sourceIds, |plan[i].sourceIds|)
  {
    var ids := plan[i].sourceIds;
    FirstOfIs(ids, |ids|);
    assert ids[..|ids|] == ids;
    assert plan[..i + 1] == plan[..i] + [plan[i]];
    forall c
      ensures c in plan[..i + 1] <==> c in plan[..i] || c == plan[i]
    {
    }
  }

  lemma SourcesGrow(plan: seq<FactCandidate>, i: nat, j: nat)
    requires i < |plan| && j <= |plan[i].sourceIds|
    ensures SourcesOf(plan[..i]) + FirstOf(plan[i].sourceIds, j) <= SourcesOf(plan)
  {
    FirstOfIs(plan[i].sourceIds, j);
    assert forall c :: c in plan[..i] ==> c in plan;
    assert plan[i] in plan;
    forall id | id in FirstOf(plan[i].sourceIds, j)
      ensures id in SourcesOf(plan)
    {
      assert id in plan[i].sourceIds[..j];
      assert id in plan[i].sourceIds;
    }
    forall id | id in SourcesOf(plan[..i])
      ensures id in SourcesOf(plan)
    {
      var c :| c in plan[..i] && id in c.sourceIds;
    }
  }

  lemma ReachedSources(plan: seq<FactCandidate>, i: nat, before: set<string>, after: set<string>, ok: bool)
    requires i < |plan| && before == SourcesOf(plan[..i]) && Reached(plan[i].sourceIds, before, after, ok)
    ensures after <= SourcesOf(plan) && (ok ==> after == SourcesOf(plan[..i + 1]))
  {
    hide SourcesOf, FirstOf;
    var n :| 0 <= n <= |plan[i].sourceIds| && after == before + FirstOf(plan[i].sourceIds, n) && (ok ==> n == |plan[i].sourceIds|);
    SourcesGrow(plan, i, n);
    SourcesNext(plan, i);
  }

  /** Without repetitions a list is as long as the set of its members. */
  lemma {:induction false} FirstOfSize(ids: seq<string>, n: nat)
    requires n <= |ids| && forall i, j :: 0 <= i < j < |ids| ==> ids[i] != ids[j]
    ensures |FirstOf(ids, n)| == n
  {
    if n > 0 {
      FirstOfSize(ids, n - 1);
      FirstOfIs(ids, n - 1);
      assert ids[n - 1] !in ids[..n - 1];
    }
  }

  lemma SortedDistinct(ids: seq<string>)
    requires Sorted(ids, Less)
    ensures forall i, j :: 0 <= i < j < |ids| ==> ids[i] != ids[j]
  {
    LessIsStrict();
  }

  /** Two candidates of a plan never name the same fact. */
  lemma NamedOnce(facts: map<string, Fact>, p: Encoding.Print, plan: seq<FactCandidate>, i: nat, j: nat, id: string)
    requires IsPlan(facts, p, plan) && UnderOwnIds(facts) && j < i < |plan| && id in plan[i].sourceIds
    ensures id !in plan[j].sourceIds
  {
    hide IdentityOf, Better, ForClass, Less, UnderOwnIds;
    assert plan[i] in plan && plan[j] in plan && TargetBefore(plan[j], plan[i]);
    if id in plan[j].sourceIds {
      var a :| Plans(facts, p, a, plan[i]);
      var b :| Plans(facts, p, b, plan[j]);
      SamePlanKey(facts, p, a, plan[i], id);
      SamePlanKey(facts, p, b, plan[j], id);
      SamePlan(facts, p, a, plan[i], plan[j]);
      LessIrreflexive(plan[i].targetId);
    }
  }

  lemma SourcesCounted(facts: map<string, Fact>, p: Encoding.Print, plan: seq<FactCandidate>, i: nat)
    requires IsPlan(facts, p, plan) && UnderOwnIds(facts) && i < |plan|
    ensures |SourcesOf(plan[..i + 1])| == |SourcesOf(plan[..i])| + |plan[i].sourceIds|
  {
    hide IsPlan, FirstOf, Less, Plans;
    var ids := plan[i].sourceIds;
    SourcesNext(plan, i);
    SourcesSorted(facts, p, plan, i);
    SortedDistinct(ids);
    FirstOfSize(ids, |ids|);
    FirstOfIs(ids, |ids|);
    forall id | id in SourcesOf(plan[..i])
      ensures id !in FirstOf(ids, |ids|)
    {
      var c :| c in plan[..i] && id in c.sourceIds;
      var j :| 0 <= j < i && plan[j] == c;
      if id in ids {
        NamedOnce(facts, p, plan, i, j, id);
      }
    }
    DisjointSizes(SourcesOf(plan[..i]), FirstOf(ids, |ids|));
  }

  lemma SourcesSorted(facts: map<string, Fact>, p: Encoding.Print, plan: seq<FactCandidate>, i: nat)
    requires IsPlan(facts, p, plan) && i < |plan|
    ensures Sorted(plan[i].sourceIds, Less)
  {
    hide Plans, Less;
    assert plan[i] in plan;
  }

  lemma DisjointSizes<T>(a: set<T>, b: set<T>)
    requires forall x :: x in a ==> x !in b
    ensures |a + b| == |a| + |b|
  {
    assert a * b == {};
  }

  // ----- what a full apply leaves -----

  lemma SamePlanKey(facts: map<string, Fact>, p: Encoding.Print, key: FactIdentity, c: FactCandidate, id: string)
    requires Plans(facts, p, key, c) && id in c.sourceIds
    ensures id in ClassOf(facts, p, key) && id != c.targetId
  {
    hide IdentityOf, Better;
  }

  /** A member of a class is retracted exactly when it is not the best one. */
  lemma RetractedIffNotBest(facts: map<string, Fact>, p: Encoding.Print, plan: seq<FactCandidate>, id: string)
    requires IsPlan(facts, p, plan) && UnderOwnIds(facts) && id in facts && facts[id].status == Active
    ensures id in SourcesOf(plan) <==> !BestOf(facts, ClassOf(facts, p, IdentityOf(p, facts[id])), id)
  {
    hide IdentityOf, Sorted, Less;
    var key := IdentityOf(p, facts[id]);
    var members := ClassOf(facts, p, key);
    assert id in members;
    if id in SourcesOf(plan) {
      var c :| c in plan && id in c.sourceIds;
      var k :| Plans(facts, p, k, c);
      SamePlanKey(facts, p, k, c, id);
      BetterIsStrict(facts[c.targetId], facts[id], facts[c.targetId]);
    }
    if !BestOf(facts, members, id) {
      var other :| other in members && other != id && !Better(facts[id], facts[other]);
      TwoMembers(members, id, other);
      var c :| c in plan && Plans(facts, p, key, c);
      assert id in c.sourceIds;
    }
  }

  lemma TwoMembers(members: set<string>, a: string, b: string)
    requires a in members && b in members && a != b
    ensures |members| >= 2
  {
    SubsetSize({a, b}, members);
  }

  lemma {:induction false} BestExists(facts: map<string, Fact>, members: set<string>) returns (best: string)
    requires members <= facts.Keys && members != {} && UnderOwnIds(facts)
    ensures BestOf(facts, members, best)
    decreases members
  {
    var id :| id in members;
    if members == {id} {
      best := id;
    } else {
      var rest := BestExists(facts, members - {id});
      best := if Better(facts[id], facts[rest]) then id else rest;
      forall other | other in members && other != best
        ensures Better(facts[best], facts[other])
      {
        BetterIsStrict(facts[id], facts[rest], facts[other]);
        BetterIsStrict(facts[rest], facts[id], facts[other]);
      }
    }
  }

  lemma AppliedClass(before: map<string, Fact>, after: map<string, Fact>, p: Encoding.Print, plan: seq<FactCandidate>, key: FactIdentity)
    requires IsPlan(before, p, plan) && Applied(before, after, plan, SourcesOf(plan))
    ensures ClassOf(after, p, key) == ClassOf(before, p, key) - SourcesOf(plan)
  {
    hide IsPlan, Sort, InPlan;
    forall id
      ensures id in ClassOf(after, p, key) <==> id in ClassOf(before, p, key) - SourcesOf(plan)
    {
      if id in before && id in SourcesOf(plan) {
        var c :| InPlan(plan, id, c) && RetractedFor(before[id], after[id], c.targetId);
      }
    }
  }

  /** Compaction loses no claim: a class that had an active member has exactly one left,
      the best by confidence, later observation and lower ID. */
  lemma OneSurvivorPerClass(before: map<string, Fact>, after: map<string, Fact>, p: Encoding.Print,
                            plan: seq<FactCandidate>, key: FactIdentity)
    requires IsPlan(before, p, plan) && UnderOwnIds(before) && Applied(before, after, plan, SourcesOf(plan))
    ensures var members := ClassOf(before, p, key);
            members != {} ==> exists best :: BestOf(before, members, best) && ClassOf(after, p, key) == {best}
    ensures ClassOf(before, p, key) == {} ==> ClassOf(after, p, key) == {}
  {
    hide IdentityOf, IsPlan, Applied, SourcesOf, Better;
    AppliedClass(before, after, p, plan, key);
    var members := ClassOf(before, p, key);
    if members != {} {
      var best := BestExists(before, members);
      forall id
        ensures id in members - SourcesOf(plan) <==> id == best
      {
        if id in members {
          RetractedIffNotBest(before, p, plan, id);
          BetterIsStrict(before[best], before[id], before[best]);
        }
        if id == best {
          RetractedIffNotBest(before, p, plan, id);
        }
      }
      assert ClassOf(after, p, key) == {best};
    }
  }

  /** Facts outside the classes of several members are untouched, byte for byte. */
  lemma OthersUntouched(before: map<string, Fact>, after: map<string, Fact>, p: Encoding.Print,
                        plan: seq<FactCandidate>, id: string)
    requires IsPlan(before, p, plan) && Applied(before, after, plan, SourcesOf(plan)) && id in before
    requires before[id].status != Active || |ClassOf(before, p, IdentityOf(p, before[id]))| < 2
    ensures after[id] == before[id]
  {
    hide IdentityOf, Better, Sorted;
    forall c | c in plan
      ensures id !in c.sourceIds
    {
      var key :| Plans(before, p, key, c);
      SourceClass(before, p, key, c, id);
    }
  }

  lemma SourceClass(facts: map<string, Fact>, p: Encoding.Print, key: FactIdentity, c: FactCandidate, id: string)
    requires Plans(facts, p, key, c)
    ensures id in c.sourceIds ==>
      id in facts && facts[id].status == Active && |ClassOf(facts, p, IdentityOf(p, facts[id]))| >= 2
  {
    hide IdentityOf, Better;
  }

  /** Compaction reaches a fixed point: planning again finds nothing to do. */
  lemma NothingLeftToCompact(before: map<string, Fact>, after: map<string, Fact>, p: Encoding.Print,
                             plan: seq<FactCandidate>, again: seq<FactCandidate>)
    requires IsPlan(before, p, plan) && UnderOwnIds(before) && Applied(before, after, plan, SourcesOf(plan))
    requires IsPlan(after, p, again)
    ensures again == []
  {
    hide IdentityOf, Applied, SourcesOf, ClassOf, Sorted, Plans, UnderOwnIds;
    assert again != [] ==> again[0] in again;
    forall key, c
      ensures !Plans(after, p, key, c)
    {
      OneSurvivorPerClass(before, after, p, plan, key);
      NothingToPlan(after, p, key, c);
    }
  }

  lemma NothingToPlan(facts: map<string, Fact>, p: Encoding.Print, key: FactIdentity, c: FactCandidate)
    ensures ClassOf(facts, p, key) == {} ==> !Plans(facts, p, key, c)
    ensures forall best :: ClassOf(facts, p, key) == {best} ==> !Plans(facts, p, key, c)
  {
    hide IdentityOf, Better;
  }
}
