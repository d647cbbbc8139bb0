/** Entity merging (cmd/yeoul/fact_cmd.go): one batch that marks the sources and
    updates the target, and what any sequence of merges does to the redirects. */
module Merge {
  import opened Wrappers
  import opened Text
  import opened Sorting
  import opened Records
  import opened EngineSpec
  import opened Invariants
  import opened Preservation
  import opened Redirects
  import AnyState
  import E = Engine

  /** The library text functions a merge uses; nothing is assumed about them. */
  datatype Library = Library(toLower: string -> string, sprint: Value -> string)

  datatype MergeInput = MergeInput(targetId: string, sourceIds: seq<string>, reason: string, markedAt: string)

  const DRIFT_NAMESPACE := Field("merge_drift_namespace")
  const DRIFT_TYPE := Field("merge_drift_type")

  // ----- which entities may merge -----

  function NormalizeKey(lib: Library, value: string): string {
    lib.toLower(Trim(value))
  }

  function NamesOf(lib: Library, entity: Entity): set<string> {
    {NormalizeKey(lib, entity.canonicalName)} + set alias | alias in entity.aliases :: NormalizeKey(lib, alias)
  }

  /** entityNamesOverlap */
  predicate NamesOverlap(lib: Library, left: Entity, right: Entity) {
    var l, r := StableKeyOf(left.metadata), StableKeyOf(right.metadata);
    if l != "" && r != "" then l == r else NamesOf(lib, left) * NamesOf(lib, right) != {}
  }

  predicate Compatible(lib: Library, target: Entity, source: Entity) {
    var t, s := StableKeyOf(target.metadata), StableKeyOf(source.metadata);
    source.spaceId == target.spaceId &&
    (t == "" || s == "" || t == s) &&
    (source.namespace == target.namespace ||
     (NamesOverlap(lib, target, source) &&
      (Blank(source.namespace) || Blank(target.namespace) ||
       NormalizeKey(lib, source.namespace) == NormalizeKey(lib, target.namespace)))) &&
    (source.typ == target.typ || NormalizeKey(lib, source.typ) == NormalizeKey(lib, target.typ))
  }

  /** fmt.Sprint of the marker is empty only for the empty string. */
  predicate IsCanonical(entity: Entity) {
    Marked(entity) ==> entity.metadata[DuplicateOf] == Records.Text("")
  }

  predicate Redirected(entity: Entity) {
    Marked(entity) && (entity.metadata[DuplicateOf].Text? ==> !Blank(entity.metadata[DuplicateOf].text))
  }

  function AdmitMergeSource(s: State, lib: Library, target: Entity, sourceId: string): Result<Entity> {
    if sourceId == target.id then Err(MergeRefused)
    else if sourceId !in s.entities then Err(EntityNotFound)
    else if Redirected(s.entities[sourceId]) || !Compatible(lib, target, s.entities[sourceId]) then Err(MergeRefused)
    else Ok(s.entities[sourceId])
  }

  function MergeSources(s: State, lib: Library, target: Entity, ids: seq<string>): Result<seq<Entity>> {
    if ids == [] then Ok([])
    else
      var front :- MergeSources(s, lib, target, ids[..|ids| - 1]);
      var source :- AdmitMergeSource(s, lib, target, ids[|ids| - 1]);
      Ok(front + [source])
  }

  // ----- the batch -----

  function Drift(target: Entity, source: Entity): Metadata {
    (if source.namespace != target.namespace
     then map[DRIFT_NAMESPACE := Records.Text(target.namespace + " -> " + source.namespace)] else map[]) +
    (if source.typ != target.typ then map[DRIFT_TYPE := Records.Text(target.typ + " -> " + source.typ)] else map[])
  }

  function MarkedInput(target: Entity, source: Entity, input: MergeInput): EntityInput {
    EntityInput(source.id, source.spaceId, source.namespace, source.typ, source.canonicalName, "", source.aliases,
      source.metadata + (map[
        DuplicateOf := Records.Text(input.targetId), MergeReason := Records.Text(input.reason),
        MergeMarked := Records.Text(input.markedAt), MergeTarget := Records.Text(input.targetId)] + Drift(target, source)))
  }

  function MarkedInputs(target: Entity, sources: seq<Entity>, input: MergeInput): (r: seq<EntityInput>)
    ensures |r| == |sources| && forall i :: 0 <= i < |r| ==> r[i] == MarkedInput(target, sources[i], input)
  {
    if sources == [] then []
    else MarkedInputs(target, sources[..|sources| - 1], input) + [MarkedInput(target, sources[|sources| - 1], input)]
  }

  function DriftValues(target: Entity, sources: seq<Entity>, key: MetaKey): seq<string> {
    if sources == [] then []
    else
      var front, drift := DriftValues(target, sources[..|sources| - 1], key), Drift(target, sources[|sources| - 1]);
      if key in drift && drift[key].Text? then front + [drift[key].text] else front
  }

  /** mergeDriftSummary */
  function DriftSummary(target: Entity, sources: seq<Entity>, key: MetaKey): Metadata {
    var values := DriftValues(target, sources, key);
    if values == [] then map[]
    else if |values| == 1 then map[key := Records.Text(values[0])]
    else map[key := Texts(values)]
  }

  function StringsOf(lib: Library, value: Value): seq<string> {
    match value
    case Texts(ts) => ts
    case List(items) => seq(|items|, i requires 0 <= i < |items| => lib.sprint(items[i]))
    case _ => []
  }

  function MergedFromOf(lib: Library, target: Entity, sources: seq<Entity>): seq<string> {
    var earlier := if MergedFrom in target.metadata then StringsOf(lib, target.metadata[MergedFrom]) else [];
    Sort(DedupeTrimmed(earlier + seq(|sources|, i requires 0 <= i < |sources| => sources[i].id)), Less)
  }

  function MergedAliases(target: Entity, sources: seq<Entity>): seq<string> {
    if sources == [] then target.aliases
    else
      var last := sources[|sources| - 1];
      MergedAliases(target, sources[..|sources| - 1]) + [last.canonicalName] + last.aliases
  }

  function TargetInput(lib: Library, target: Entity, sources: seq<Entity>, input: MergeInput): EntityInput {
    EntityInput(target.id, target.spaceId, target.namespace, target.typ, target.canonicalName, "",
      MergedAliases(target, sources),
      target.metadata + (map[
        MergedFrom := Texts(MergedFromOf(lib, target, sources)), MergeReason := Records.Text(input.reason),
        MergeMarked := Records.Text(input.markedAt)] +
        (DriftSummary(target, sources, DRIFT_NAMESPACE) + DriftSummary(target, sources, DRIFT_TYPE))))
  }

  function MergeBatch(lib: Library, target: Entity, sources: seq<Entity>, input: MergeInput): BatchInput {
    BatchInput([], MarkedInputs(target, sources, input) + [TargetInput(lib, target, sources, input)], [], false)
  }

  /** Every participant is checked before anything is written. */
  function MergePlan(s: State, lib: Library, input: MergeInput): Result<BatchInput> {
    if input.targetId !in s.entities then Err(EntityNotFound)
    else if !IsCanonical(s.entities[input.targetId]) then Err(MergeRefused)
    else
      var target := s.entities[input.targetId];
      var sources :- MergeSources(s, lib, target, input.sourceIds);
      Ok(MergeBatch(lib, target, sources, input))
  }

  ghost function MergeStep(s: State, d: Derivation, lib: Library, input: MergeInput, now: int): State {
    var plan := MergePlan(s, lib, input);
    if plan.Ok? then Step(s, d, BatchOp(plan.value), now) else s
  }

  lemma {:induction false} MergeSourcesFails(s: State, lib: Library, target: Entity, ids: seq<string>, i: nat)
    requires i <= |ids| && MergeSources(s, lib, target, ids[..i]).Err?
    ensures MergeSources(s, lib, target, ids) == Err(MergeSources(s, lib, target, ids[..i]).error)
    decreases |ids|
  {
    hide AdmitMergeSource;
    if i == |ids| {
      assert ids[..i] == ids;
    } else {
      assert ids[..|ids| - 1][..i] == ids[..i];
      MergeSourcesFails(s, lib, target, ids[..|ids| - 1], i);
    }
  }

  // ----- mergeEntities -----

  /** The validation loop of mergeEntities. */
  method CollectSources(s: State, lib: Library, target: Entity, ids: seq<string>) returns (r: Result<seq<Entity>>)
    ensures r == MergeSources(s, lib, target, ids)
  {
    hide AdmitMergeSource;
    var sources: seq<Entity> := [];
    for i := 0 to |ids|
      invariant MergeSources(s, lib, target, ids[..i]) == Ok(sources)
    {
      var source := AdmitMergeSource(s, lib, target, ids[i]);
      assert ids[..i + 1][..i] == ids[..i];
      if source.Err? {
        MergeSourcesFails(s, lib, target, ids, i + 1);
        return Err(source.error);
      }
      sources := sources + [source.value];
    }
    assert ids[..|ids|] == ids;
    return Ok(sources);
  }

  /** The loop that fills the batch and gathers the aliases. */
  method BuildBatch(lib: Library, target: Entity, sources: seq<Entity>, input: MergeInput) returns (batch: BatchInput)
    ensures batch == MergeBatch(lib, target, sources, input)
  {
    hide MarkedInput, DriftSummary, MergedFromOf;
    var aliases := target.aliases;
    var entities: seq<EntityInput> := [];
    for i := 0 to |sources|
      invariant aliases == MergedAliases(target, sources[..i])
      invariant entities == MarkedInputs(target, sources[..i], input)
    {
      assert sources[..i + 1][..i] == sources[..i];
      aliases := aliases + [sources[i].canonicalName] + sources[i].aliases;
      entities := entities + [MarkedInput(target, sources[i], input)];
    }
    assert sources[..|sources|] == sources;
    entities := entities + [TargetInput(lib, target, sources, input)];
    batch := BatchInput([], entities, [], false);
  }

  method PlanMerge(s: State, lib: Library, input: MergeInput) returns (plan: Result<BatchInput>)
    ensures plan == MergePlan(s, lib, input)
  {
    hide IsCanonical, AdmitMergeSource, MergeBatch;
    if input.targetId !in s.entities {
      return Err(EntityNotFound);
    }
    var target := s.entities[input.targetId];
    if !IsCanonical(target) {
      return Err(MergeRefused);
    }
    var sources := CollectSources(s, lib, target, input.sourceIds);
    if sources.Err? {
      return Err(sources.error);
    }
    var batch := BuildBatch(lib, target, sources.value, input);
    return Ok(batch);
  }

  /** mergeEntities: validate everyone, then commit markers and aliases in one batch. A
      refused merge leaves the engine as it was. */
  method MergeEntities(eng: E.Engine, d: Derivation, lib: Library, input: MergeInput, now: int) returns (r: Result<()>)
    requires eng.Valid() && now > 0
    modifies eng, eng.store.Footprint()
    ensures eng.Valid()
    ensures r.Ok? ==> eng.State() == MergeStep(old(eng.State()), d, lib, input, now)
    ensures r.Err? ==> eng.State() == old(eng.State())
    ensures !old(eng.poisoned) && MergePlan(old(eng.State()), lib, input).Err? ==>
      r.Err? && r.error == MergePlan(old(eng.State()), lib, input).error && unchanged(eng)
  {
    hide Mutation, MergePlan, Inv, E.Explained, AnyState.Carries, E.Engine.Valid, E.Engine.DiskAgrees;
    if eng.poisoned {
      return Err(StorageFailed);
    }
    var plan := PlanMerge(eng.State(), lib, input);
    if plan.Err? {
      return Err(plan.error);
    }
    r := eng.Mutate(d, BatchOp(plan.value), now);
  }
}
