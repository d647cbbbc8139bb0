/** Merge redirects (pkg/yeoul/history.go): following `duplicate_of` markers through
    the entities a read can see. */
module Redirects {
  import opened Wrappers
  import opened Text
  import opened Records
  import opened EngineSpec

  const MAX_HOPS := 64

  predicate Marked(entity: Entity) {
    DuplicateOf in entity.metadata
  }

  /** The entity a valid marker leads to: a different, visible entity of the same
      space, named by a non-blank string. */
  function Target(entities: map<string, Entity>, id: string): (r: Option<string>)
    requires id in entities && Marked(entities[id])
    ensures r.Some? ==> r.value in entities && r.value != id
  {
    var marker := entities[id].metadata[DuplicateOf];
    if marker.Text? && !Blank(marker.text) && marker.text != id && marker.text in entities &&
       SpaceOf(entities[marker.text].spaceId) == SpaceOf(entities[id].spaceId)
    then Some(marker.text) else None
  }

  /** canonicalEntityIDAtLocked: follow the chain for a bounded number of hops; any
      dangling, foreign, invalid or cyclic chain falls back to the original ID. */
  function CanonicalFrom(entities: map<string, Entity>, original: string, current: string,
                         visited: set<string>, hops: nat): string
    decreases hops
  {
    if hops == 0 || current !in entities then original
    else if !Marked(entities[current]) then current
    else
      var next := Target(entities, current);
      if next.None? || next.value in visited then original
      else CanonicalFrom(entities, original, next.value, visited + {next.value}, hops - 1)
  }

  function Canonical(entities: map<string, Entity>, id: string): string {
    if Blank(id) then id else CanonicalFrom(entities, id, id, {id}, MAX_HOPS)
  }

  // ----- what resolution means -----

  /** Where k valid redirects lead. */
  function Follow(entities: map<string, Entity>, id: string, k: nat): Option<string> {
    if k == 0 then (if id in entities then Some(id) else None)
    else
      var before := Follow(entities, id, k - 1);
      if before.Some? && before.value in entities && Marked(entities[before.value])
      then Target(entities, before.value) else None
  }

  /** An unmarked entity reached by at most 63 valid redirects. */
  ghost predicate Resolves(entities: map<string, Entity>, id: string, end: string) {
    exists k :: 0 <= k < MAX_HOPS && ReachesEnd(entities, id, k, end)
  }

  predicate ReachesEnd(entities: map<string, Entity>, id: string, k: nat, end: string) {
    Follow(entities, id, k) == Some(end) && end in entities && !Marked(entities[end])
  }

  lemma {:induction false} FollowStays(entities: map<string, Entity>, id: string, k: nat)
    ensures Follow(entities, id, k).Some? ==> Follow(entities, id, k).value in entities
    ensures forall j :: 0 <= j < k && Follow(entities, id, k).Some? ==>
      Follow(entities, id, j).Some? && Follow(entities, id, j).value in entities &&
      Marked(entities[Follow(entities, id, j).value])
  {
    hide Target;
    if k > 0 {
      FollowStays(entities, id, k - 1);
      var before := Follow(entities, id, k - 1);
      forall j | 0 <= j < k && Follow(entities, id, k).Some?
        ensures Follow(entities, id, j).Some? && Follow(entities, id, j).value in entities &&
                Marked(entities[Follow(entities, id, j).value])
      {
        if j == k - 1 {
          assert Follow(entities, id, j) == before;
        }
      }
    }
  }

  lemma EndUnique(entities: map<string, Entity>, id: string, j: nat, a: string, k: nat, b: string)
    requires ReachesEnd(entities, id, j, a) && ReachesEnd(entities, id, k, b)
    ensures j == k && a == b
  {
    FollowStays(entities, id, j);
    FollowStays(entities, id, k);
  }

  /** Once a chain returns to an earlier marked member it never reaches an end. */
  lemma {:induction false} CycleRepeats(entities: map<string, Entity>, id: string, i: nat, n: nat, k: nat)
    requires i <= n && Follow(entities, id, n + 1) == Follow(entities, id, i) && Follow(entities, id, i).Some?
    ensures exists m :: 0 <= m <= n && Follow(entities, id, k) == Follow(entities, id, m)
  {
    if k > n {
      CycleRepeats(entities, id, i, n, k - 1);
      var m :| 0 <= m <= n && Follow(entities, id, k - 1) == Follow(entities, id, m);
      assert Follow(entities, id, k) == Follow(entities, id, m + 1);
      if m == n {
        assert Follow(entities, id, k) == Follow(entities, id, i);
      }
    }
  }

  ghost predicate OnPath(entities: map<string, Entity>, id: string, n: nat, x: string) {
    x == id || exists m :: 0 <= m <= n && Follow(entities, id, m) == Some(x)
  }

  /** The walk after n hops stands at Follow(n), has seen exactly Follow(0..n), and
      everything before it is marked. */
  ghost predicate Walk(entities: map<string, Entity>, id: string, n: nat, current: string, visited: set<string>) {
    (if id in entities then Follow(entities, id, n) == Some(current) else n == 0 && current == id) &&
    (forall x :: x in visited ==> OnPath(entities, id, n, x)) &&
    (forall m :: 0 <= m < n ==>
      Follow(entities, id, m).Some? && Follow(entities, id, m).value in entities &&
      Marked(entities[Follow(entities, id, m).value]))
  }

  lemma {:induction false} WalkResolves(entities: map<string, Entity>, id: string, n: nat, current: string, visited: set<string>)
    requires n <= MAX_HOPS && Walk(entities, id, n, current, visited)
    ensures var r := CanonicalFrom(entities, id, current, visited, MAX_HOPS - n);
            (forall end :: Resolves(entities, id, end) ==> r == end) &&
            (r == id || Resolves(entities, id, r))
    decreases MAX_HOPS - n
  {
    hide Blank;
    if n == MAX_HOPS {
      TooFar(entities, id, n);
    } else if current !in entities {
      NotVisible(entities, id);
    } else if !Marked(entities[current]) {
      assert ReachesEnd(entities, id, n, current);
      forall end | Resolves(entities, id, end)
        ensures end == current
      {
        var k :| 0 <= k < MAX_HOPS && ReachesEnd(entities, id, k, end);
        EndUnique(entities, id, n, current, k, end);
      }
    } else {
      var next := Target(entities, current);
      assert Follow(entities, id, n + 1) == next;
      if next.None? {
        DeadEnd(entities, id, n + 1);
      } else if next.value in visited {
        Cyclic(entities, id, n, current, visited);
      } else {
        assert Walk(entities, id, n + 1, next.value, visited + {next.value}) by {
          forall x | x in visited + {next.value}
            ensures OnPath(entities, id, n + 1, x)
          {
            if x == next.value {
              assert Follow(entities, id, n + 1) == Some(x);
            } else {
              assert OnPath(entities, id, n, x);
            }
          }
        }
        WalkResolves(entities, id, n + 1, next.value, visited + {next.value});
      }
    }
  }

  lemma TooFar(entities: map<string, Entity>, id: string, n: nat)
    requires forall m :: 0 <= m < n ==>
      Follow(entities, id, m).Some? && Follow(entities, id, m).value in entities &&
      Marked(entities[Follow(entities, id, m).value])
    ensures forall k, end :: 0 <= k < n ==> !ReachesEnd(entities, id, k, end)
  {
  }

  lemma NotVisible(entities: map<string, Entity>, id: string)
    requires id !in entities
    ensures forall end :: !Resolves(entities, id, end)
  {
    assert Follow(entities, id, 0).None?;
    forall k: nat, end
      ensures !ReachesEnd(entities, id, k, end)
    {
      FollowStays(entities, id, k);
    }
  }

  lemma DeadEnd(entities: map<string, Entity>, id: string, n: nat)
    requires Follow(entities, id, n).None?
    requires forall m :: 0 <= m < n ==>
      Follow(entities, id, m).Some? && Follow(entities, id, m).value in entities &&
      Marked(entities[Follow(entities, id, m).value])
    ensures forall end :: !Resolves(entities, id, end)
  {
    forall k: nat, end
      ensures !ReachesEnd(entities, id, k, end)
    {
      FollowStays(entities, id, k);
    }
  }

  lemma Cyclic(entities: map<string, Entity>, id: string, n: nat, current: string, visited: set<string>)
    requires Walk(entities, id, n, current, visited) && current in entities && Marked(entities[current])
    requires Target(entities, current).Some? && Target(entities, current).value in visited && id in entities
    ensures forall end :: !Resolves(entities, id, end)
  {
    hide Target;
    var next := Target(entities, current).value;
    assert Follow(entities, id, n + 1) == Some(next);
    assert OnPath(entities, id, n, next);
    assert Follow(entities, id, 0) == Some(id);
    var back: nat :| back <= n && Follow(entities, id, back) == Some(next);
    forall k: nat, end
      ensures !ReachesEnd(entities, id, k, end)
    {
      CycleRepeats(entities, id, back, n, k);
      var m :| 0 <= m <= n && Follow(entities, id, k) == Follow(entities, id, m);
      assert m == n || Marked(entities[Follow(entities, id, m).value]);
    }
  }

  /** Resolution yields the unmarked end of the chain exactly when at most 63 valid
      redirects lead there, and otherwise the raw ID, on any marker graph. */
  lemma CanonicalExact(entities: map<string, Entity>, id: string)
    requires !Blank(id)
    ensures forall end :: Resolves(entities, id, end) ==> Canonical(entities, id) == end
    ensures (forall end :: !Resolves(entities, id, end)) ==> Canonical(entities, id) == id
    ensures Canonical(entities, id) == id || Resolves(entities, id, Canonical(entities, id))
  {
    assert Walk(entities, id, 0, id, {id});
    WalkResolves(entities, id, 0, id, {id});
  }

  lemma CanonicalOfEnd(entities: map<string, Entity>, end: string)
    requires end in entities && !Marked(entities[end])
    ensures Canonical(entities, end) == end
  {
  }

  lemma CanonicalIdempotent(entities: map<string, Entity>, id: string)
    ensures Canonical(entities, Canonical(entities, id)) == Canonical(entities, id)
  {
    hide Blank, CanonicalFrom;
    if !Blank(id) && Canonical(entities, id) != id {
      CanonicalExact(entities, id);
      var k :| 0 <= k < MAX_HOPS && ReachesEnd(entities, id, k, Canonical(entities, id));
      CanonicalOfEnd(entities, Canonical(entities, id));
    }
  }

  /** Resolution looks at spaces and markers only. */
  lemma {:induction false} CanonicalIgnoresHistory(a: map<string, Entity>, b: map<string, Entity>, original: string,
                                                   current: string, visited: set<string>, hops: nat)
    requires a.Keys == b.Keys
    requires forall id :: id in a ==> b[id] == Historyless(a[id])
    ensures CanonicalFrom(a, original, current, visited, hops) == CanonicalFrom(b, original, current, visited, hops)
    decreases hops
  {
    hide Blank;
    if hops > 0 && current in a && Marked(a[current]) {
      assert b[current].metadata[DuplicateOf] == a[current].metadata[DuplicateOf];
      assert Target(a, current) == Target(b, current);
      var next := Target(a, current);
      if next.Some? && next.value !in visited {
        CanonicalIgnoresHistory(a, b, original, next.value, visited + {next.value}, hops - 1);
      }
    }
  }
}
