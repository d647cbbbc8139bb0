/** Supersession lineage: every fact lies on exactly one finite chain, and at each
    instant of a chain's life exactly one of its members is active, whatever the
    clock reported while it was written. */
module Lineage {
  import opened Wrappers
  import opened Text
  import opened Identity
  import opened Records
  import opened EngineSpec
  import opened Invariants
  import opened Preservation
  import opened Cuts
  import opened TimeTravel

  /** A read of the active facts as of one instant. */
  function AsOf(at: int): TemporalFilter {
    TemporalFilter(Some(at), None, None, None, None, None, false)
  }

  ghost predicate ActiveAsOf(s: State, id: string, at: int) {
    id in FactsAt(s, AsOf(at))
  }

  /** When a fact stops being active: its supersession, or else its retraction. */
  function EndOf(facts: map<string, Fact>, fact: Fact): Option<int> {
    if SupersededAt(facts, fact).Some? then SupersededAt(facts, fact)
    else if fact.status == Retracted then Some(fact.retractedAt)
    else None
  }

  lemma LifeStamps(s: State, id: string)
    requires Inv(s) && id in s.facts
    ensures EndOf(s.facts, s.facts[id]).Some? ==> s.facts[id].createdAt < EndOf(s.facts, s.facts[id]).value
    ensures s.facts[id].status == Retracted && SupersededAt(s.facts, s.facts[id]).Some? ==>
      SupersededAt(s.facts, s.facts[id]).value < s.facts[id].retractedAt
    ensures SupersededBy in s.facts[id].metadata <==> SupersededAt(s.facts, s.facts[id]).Some?
  {
    hide Core, StampsOk, PhasesOk;
    assert LifeOk(s.facts, s.facts[id]);
  }

  /** A revision of an active phase is stamped before the end, any other at or after
      it, and the end itself has a revision. */
  lemma PhaseAgainstEnd(s: State, rid: string)
    requires Inv(s) && rid in s.factRevisions
    ensures var r := s.factRevisions[rid];
            r.factId in s.facts && r.createdAt == s.facts[r.factId].createdAt && r.createdAt <= r.txTime &&
            var end := EndOf(s.facts, s.facts[r.factId]);
            if r.status == Active then r.txTime == r.createdAt
            else end.Some? && end.value <= r.txTime
  {
    hide IdsUnique, RevisionOrder, IdText, RefsOk, EntityLog, StampsOk, LivesOk, FactsCurrent;
    var r := s.factRevisions[rid];
    assert RevisionOk(s.facts, rid, r, s.sequence) && PhaseOk(s.facts, r);
    LifeStamps(s, r.factId);
  }

  lemma EndIsStamped(s: State, id: string) returns (rid: string)
    requires Inv(s) && id in s.facts && EndOf(s.facts, s.facts[id]).Some?
    ensures rid in s.factRevisions && s.factRevisions[rid].factId == id
    ensures s.factRevisions[rid].txTime == EndOf(s.facts, s.facts[id]).value
  {
    hide IdsUnique, RevisionOrder, IdText, RefsOk, EntityLog, PhasesOk, LivesOk, FactLog, KeysMatch;
    var fact := s.facts[id];
    if SupersededAt(s.facts, fact).Some? {
      assert Stamped(s.factRevisions, id, Superseded, SupersededAt(s.facts, fact).value);
      rid :| rid in s.factRevisions && s.factRevisions[rid].factId == id &&
             s.factRevisions[rid].txTime == SupersededAt(s.facts, fact).value;
    } else {
      rid := LastStamp(s, id);
    }
  }

  lemma LastStamp(s: State, id: string) returns (rid: string)
    requires Inv(s) && id in s.facts && SupersededAt(s.facts, s.facts[id]).None? && EndOf(s.facts, s.facts[id]).Some?
    ensures rid in s.factRevisions && s.factRevisions[rid].factId == id
    ensures s.factRevisions[rid].txTime == EndOf(s.facts, s.facts[id]).value
  {
    hide IdsUnique, RevisionOrder, IdText, RefsOk, EntityLog, PhasesOk, StampsOk, Linked, SupersededAt;
    var fact := s.facts[id];
    assert LifeOk(s.facts, fact) && Current(s.factRevisions, fact);
    rid :| LastOf(s.factRevisions, rid) && ToFact(s.factRevisions[rid]) == fact;
    assert RevisionOk(s.facts, rid, s.factRevisions[rid], s.sequence);
  }

  lemma BirthIsStamped(s: State, id: string) returns (rid: string)
    requires Inv(s) && id in s.facts
    ensures rid in s.factRevisions && s.factRevisions[rid].factId == id
    ensures s.factRevisions[rid].txTime == s.facts[id].createdAt
  {
    hide Core, LivesOk, PhasesOk;
    assert Stamped(s.factRevisions, id, Active, s.facts[id].createdAt);
    rid :| rid in s.factRevisions && s.factRevisions[rid].factId == id && s.factRevisions[rid].txTime == s.facts[id].createdAt;
  }

  /** A fact is active as of exactly the instants from its creation up to, and not
      including, its end. */
  lemma ActiveExactly(s: State, id: string, at: int)
    requires Inv(s) && id in s.facts
    ensures ActiveAsOf(s, id, at) <==>
            s.facts[id].createdAt <= at && (EndOf(s.facts, s.facts[id]).Some? ==> at < EndOf(s.facts, s.facts[id]).value)
  {
    hide Inv, Newest;
    var fact := s.facts[id];
    var end := EndOf(s.facts, fact);
    FactStamps(s, id);
    LifeStamps(s, id);
    var log := FactLogAt(s.factRevisions, id, at);
    var latest := LatestFactRevision(s.factRevisions, id, at);
    var born := BirthIsStamped(s, id);
    assert fact.createdAt <= at ==> born in log;
    if latest.Some? {
      var rid := Newest(log).value;
      assert IsNewest(log, rid) && rid in log;
      PhaseAgainstEnd(s, rid);
      if end.Some? && end.value <= at {
        var last := EndIsStamped(s, id);
        assert last in log && log[last] == end.value;
        assert log[rid] >= end.value;
      }
    } else {
      UnrecordedFactIsFuture(s, id, at);
    }
  }

  // ----- chains -----

  function NextOf(facts: map<string, Fact>, id: string): Option<string>
    requires id in facts
  {
    if SupersededBy in facts[id].metadata && facts[id].metadata[SupersededBy].Text?
    then Some(facts[id].metadata[SupersededBy].text) else None
  }

  function PreviousOf(facts: map<string, Fact>, id: string): Option<string>
    requires id in facts
  {
    if Supersedes in facts[id].metadata && facts[id].metadata[Supersedes].Texts? &&
       |facts[id].metadata[Supersedes].texts| == 1
    then Some(facts[id].metadata[Supersedes].texts[0]) else None
  }

  /** `superseded_by` and `supersedes` are inverse, and a successor is born exactly
      when its predecessor ends. */
  ghost predicate LinksInverse(facts: map<string, Fact>, id: string)
    requires id in facts
  {
    (SupersededBy in facts[id].metadata <==> NextOf(facts, id).Some?) &&
    (Supersedes in facts[id].metadata <==> PreviousOf(facts, id).Some?) &&
    (NextOf(facts, id).Some? ==>
      var next := NextOf(facts, id).value;
      next in facts && PreviousOf(facts, next) == Some(id) &&
      EndOf(facts, facts[id]) == Some(facts[next].createdAt) && facts[id].createdAt < facts[next].createdAt) &&
    (PreviousOf(facts, id).Some? ==>
      PreviousOf(facts, id).value in facts && NextOf(facts, PreviousOf(facts, id).value) == Some(id)) &&
    (EndOf(facts, facts[id]).Some? ==> facts[id].createdAt < EndOf(facts, facts[id]).value)
  }

  ghost predicate Lineal(facts: map<string, Fact>) {
    forall id :: id in facts ==> LinksInverse(facts, id)
  }

  lemma InvIsLineal(s: State)
    requires Inv(s)
    ensures Lineal(s.facts)
  {
    hide Core, StampsOk, PhasesOk;
    forall id | id in s.facts
      ensures LinksInverse(s.facts, id)
    {
      assert LifeOk(s.facts, s.facts[id]) && s.facts[id].id == id;
    }
  }

  /** A maximal supersession chain, oldest first. */
  ghost predicate IsChain(facts: map<string, Fact>, chain: seq<string>) {
    chain != [] && (forall i :: 0 <= i < |chain| ==> chain[i] in facts) &&
    PreviousOf(facts, chain[0]).None? && NextOf(facts, chain[|chain| - 1]).None? &&
    forall i :: 0 <= i < |chain| - 1 ==> NextOf(facts, chain[i]) == Some(chain[i + 1])
  }

  function Younger(facts: map<string, Fact>, id: string): set<string>
    requires id in facts
  {
    set other | other in facts && facts[other].createdAt > facts[id].createdAt
  }

  function Older(facts: map<string, Fact>, id: string): set<string>
    requires id in facts
  {
    set other | other in facts && facts[other].createdAt < facts[id].createdAt
  }

  lemma YoungerShrinks(facts: map<string, Fact>, a: string, b: string)
    requires a in facts && b in facts && facts[a].createdAt < facts[b].createdAt
    ensures |Younger(facts, b)| < |Younger(facts, a)| && |Older(facts, a)| < |Older(facts, b)|
  {
    assert Younger(facts, b) <= Younger(facts, a) - {b};
    SubsetSize(Younger(facts, b), Younger(facts, a) - {b});
    assert Older(facts, a) <= Older(facts, b) - {a};
    SubsetSize(Older(facts, a), Older(facts, b) - {a});
  }

  /** The members after `id`, found by following `superseded_by`; creation times grow,
      so the walk ends. */
  lemma {:induction false} Descendants(facts: map<string, Fact>, id: string) returns (chain: seq<string>)
    requires Lineal(facts) && id in facts
    ensures chain != [] && chain[0] == id && (forall i :: 0 <= i < |chain| ==> chain[i] in facts)
    ensures NextOf(facts, chain[|chain| - 1]).None?
    ensures forall i :: 0 <= i < |chain| - 1 ==> NextOf(facts, chain[i]) == Some(chain[i + 1])
    decreases |Younger(facts, id)|
  {
    assert LinksInverse(facts, id);
    var next := NextOf(facts, id);
    if next.None? {
      chain := [id];
    } else {
      YoungerShrinks(facts, id, next.value);
      chain := Descendants(facts, next.value);
      chain := [id] + chain;
    }
  }

  lemma {:induction false} Ancestors(facts: map<string, Fact>, id: string) returns (chain: seq<string>)
    requires Lineal(facts) && id in facts
    ensures chain != [] && chain[|chain| - 1] == id && (forall i :: 0 <= i < |chain| ==> chain[i] in facts)
    ensures PreviousOf(facts, chain[0]).None?
    ensures forall i :: 0 <= i < |chain| - 1 ==> NextOf(facts, chain[i]) == Some(chain[i + 1])
    decreases |Older(facts, id)|
  {
    assert LinksInverse(facts, id);
    var previous := PreviousOf(facts, id);
    if previous.None? {
      chain := [id];
    } else {
      assert LinksInverse(facts, previous.value);
      YoungerShrinks(facts, previous.value, id);
      chain := Ancestors(facts, previous.value);
      chain := chain + [id];
    }
  }

  /** Every fact lies on a chain. */
  lemma EveryFactOnAChain(facts: map<string, Fact>, id: string) returns (chain: seq<string>)
    requires Lineal(facts) && id in facts
    ensures IsChain(facts, chain) && id in chain
  {
    hide Lineal;
    var before := Ancestors(facts, id);
    var after := Descendants(facts, id);
    chain := before + after[1..];
    assert chain[|before| - 1] == id;
  }

  /** Chains are disjoint: two chains that share a member are the same chain. */
  lemma ChainsDisjoint(facts: map<string, Fact>, a: seq<string>, b: seq<string>, i: nat, j: nat)
    requires Lineal(facts) && IsChain(facts, a) && IsChain(facts, b)
    requires i < |a| && j < |b| && a[i] == b[j]
    ensures a == b
  {
    hide Lineal;
    SamePrefix(facts, a, b, i, j);
    SameSuffix(facts, a, b, i);
  }

  lemma {:induction false} SamePrefix(facts: map<string, Fact>, a: seq<string>, b: seq<string>, i: nat, j: nat)
    requires Lineal(facts) && IsChain(facts, a) && IsChain(facts, b)
    requires i < |a| && j < |b| && a[i] == b[j]
    ensures i == j && forall k :: 0 <= k <= i ==> a[k] == b[k]
  {
    assert i > 0 ==> LinksInverse(facts, a[i - 1]);
    assert j > 0 ==> LinksInverse(facts, b[j - 1]);
    if i > 0 && j > 0 {
      SamePrefix(facts, a, b, i - 1, j - 1);
    }
  }

  lemma {:induction false} SameSuffix(facts: map<string, Fact>, a: seq<string>, b: seq<string>, i: nat)
    requires IsChain(facts, a) && IsChain(facts, b)
    requires i < |a| && i < |b| && forall k :: 0 <= k <= i ==> a[k] == b[k]
    ensures a == b
    decreases |a| - i
  {
    assert i < |a| - 1 ==> NextOf(facts, a[i]) == Some(a[i + 1]);
    assert i < |b| - 1 ==> NextOf(facts, b[i]) == Some(b[i + 1]);
    if i < |a| - 1 {
      SameSuffix(facts, a, b, i + 1);
    }
  }

  // ----- handover -----

  lemma {:induction false} CreationsIncrease(facts: map<string, Fact>, chain: seq<string>, i: nat, j: nat)
    requires Lineal(facts) && IsChain(facts, chain) && i <= j < |chain|
    ensures facts[chain[i]].createdAt <= facts[chain[j]].createdAt
    ensures i < j ==> facts[chain[i]].createdAt < facts[chain[j]].createdAt
    decreases j - i
  {
    if i < j {
      CreationsIncrease(facts, chain, i, j - 1);
      assert LinksInverse(facts, chain[j - 1]);
    }
  }

  /** A chain lives from its first creation until its last member ends. */
  ghost predicate ChainAlive(facts: map<string, Fact>, chain: seq<string>, at: int)
    requires IsChain(facts, chain)
  {
    var end := EndOf(facts, facts[chain[|chain| - 1]]);
    facts[chain[0]].createdAt <= at && (end.Some? ==> at < end.value)
  }

  ghost predicate ExactlyOne(s: State, chain: seq<string>, at: int) {
    exists i :: 0 <= i < |chain| && ActiveAsOf(s, chain[i], at) &&
      forall j :: 0 <= j < |chain| && j != i ==> !ActiveAsOf(s, chain[j], at)
  }

  ghost predicate NoneActive(s: State, chain: seq<string>, at: int) {
    forall j :: 0 <= j < |chain| ==> !ActiveAsOf(s, chain[j], at)
  }

  /** The member holding a chain at an instant: the last one created by then. */
  ghost function Holder(facts: map<string, Fact>, chain: seq<string>, at: int): (i: nat)
    requires chain != [] && forall k :: 0 <= k < |chain| ==> chain[k] in facts
    requires facts[chain[0]].createdAt <= at
    ensures i < |chain| && facts[chain[i]].createdAt <= at
    ensures i + 1 < |chain| ==> at < facts[chain[i + 1]].createdAt
  {
    if |chain| == 1 || facts[chain[1]].createdAt > at then 0
    else 1 + Holder(facts, chain[1..], at)
  }

  /** The instant at which member j hands over, or the chain's end. */
  ghost function Until(facts: map<string, Fact>, chain: seq<string>, j: nat): Option<int>
    requires IsChain(facts, chain) && j < |chain|
  {
    if j + 1 < |chain| then Some(facts[chain[j + 1]].createdAt) else EndOf(facts, facts[chain[j]])
  }

  /** Member j of a chain is active from its creation to its handover. */
  lemma MemberInterval(s: State, chain: seq<string>, at: int, j: nat)
    requires Inv(s) && IsChain(s.facts, chain) && j < |chain|
    ensures ActiveAsOf(s, chain[j], at) <==>
      s.facts[chain[j]].createdAt <= at && (Until(s.facts, chain, j).Some? ==> at < Until(s.facts, chain, j).value)
  {
    hide Inv, ActiveAsOf;
    ActiveExactly(s, chain[j], at);
    InvIsLineal(s);
    assert LinksInverse(s.facts, chain[j]);
  }

  /** Atomic handover, for any clock: from a chain's first creation until its last
      member ends, exactly one member is active as of each instant; at every other
      instant none is. */
  lemma AtomicHandover(s: State, chain: seq<string>, at: int)
    requires Inv(s) && IsChain(s.facts, chain)
    ensures if ChainAlive(s.facts, chain, at) then ExactlyOne(s, chain, at) else NoneActive(s, chain, at)
  {
    hide Inv, ActiveAsOf, Lineal;
    InvIsLineal(s);
    var last := |chain| - 1;
    if ChainAlive(s.facts, chain, at) {
      var i := Holder(s.facts, chain, at);
      MemberInterval(s, chain, at, i);
      forall j | 0 <= j < |chain| && j != i
        ensures !ActiveAsOf(s, chain[j], at)
      {
        MemberInterval(s, chain, at, j);
        if i < j {
          CreationsIncrease(s.facts, chain, i + 1, j);
        } else {
          CreationsIncrease(s.facts, chain, j + 1, i);
        }
      }
    } else {
      forall j | 0 <= j < |chain|
        ensures !ActiveAsOf(s, chain[j], at)
      {
        MemberInterval(s, chain, at, j);
        CreationsIncrease(s.facts, chain, 0, j);
        if j < last {
          CreationsIncrease(s.facts, chain, j + 1, last);
          if EndOf(s.facts, s.facts[chain[last]]).Some? {
            EndAfterCreation(s.facts, chain[last]);
          }
        }
      }
    }
  }

  lemma EndAfterCreation(facts: map<string, Fact>, id: string)
    requires Lineal(facts) && id in facts && EndOf(facts, facts[id]).Some?
    ensures facts[id].createdAt < EndOf(facts, facts[id]).value
  {
    assert LinksInverse(facts, id);
  }
}
