/** What a fact lookup must return (pkg/yeoul/graph.go): an ordered list fixed by the
    cut it reads, cut into pages by cursors. */
module LookupSpec {
  import opened Wrappers
  import opened Text
  import opened Sorting
  import opened Records
  import opened EngineSpec
  import opened Invariants
  import opened Preservation
  import opened Cuts
  import TimeTravel
  import Redirects

  datatype ScopeFilter = ScopeFilter(
    factStatus: seq<FactStatus>, entityTypes: seq<string>, groupIds: seq<string>,
    sourceIds: seq<string>, sourceKinds: seq<string>)

  /** `valueMatches` is the case-folded substring test for a non-empty object text. */
  datatype FactLookupRequest = FactLookupRequest(
    spaceId: string, subjectIds: seq<string>, objectIds: seq<string>, predicates: seq<string>,
    objectText: string, valueMatches: string -> bool, scope: ScopeFilter, temporal: TemporalFilter)

  // ----- selection -----

  predicate TypeIn(cut: Cut, entityId: string, types: seq<string>) {
    entityId in cut.entities && cut.entities[entityId].typ in types
  }

  predicate EpisodeInScope(found: SourcedEpisode, scope: ScopeFilter) {
    found.source.Some? && found.source.value.spaceId == found.episode.spaceId &&
    (scope.groupIds == [] || found.episode.groupId in scope.groupIds) &&
    (scope.sourceIds == [] || found.episode.sourceId in scope.sourceIds) &&
    (scope.sourceKinds == [] || found.source.value.kind in scope.sourceKinds)
  }

  /** matchesScopeForFact */
  predicate InScope(cut: Cut, fact: Fact, scope: ScopeFilter) {
    (scope.factStatus == [] || fact.status in scope.factStatus) &&
    (scope.entityTypes == [] || TypeIn(cut, fact.subjectId, scope.entityTypes) || TypeIn(cut, fact.objectId, scope.entityTypes)) &&
    ((scope.groupIds == [] && scope.sourceIds == [] && scope.sourceKinds == []) ||
     exists id :: id in fact.support && id in cut.episodes && EpisodeInScope(cut.episodes[id], scope))
  }

  /** An endpoint matches an anchor when both resolve to the same entity. */
  predicate Anchored(entities: map<string, Entity>, anchors: seq<string>, endpoint: string) {
    anchors == [] ||
    exists i :: 0 <= i < |anchors| && Redirects.Canonical(entities, anchors[i]) == Redirects.Canonical(entities, endpoint)
  }

  predicate Selected(cut: Cut, req: FactLookupRequest, fact: Fact) {
    fact.spaceId == SpaceOf(req.spaceId) && InScope(cut, fact, req.scope) &&
    Anchored(cut.entities, req.subjectIds, fact.subjectId) &&
    (req.predicates == [] || fact.predicate_ in req.predicates) &&
    Anchored(cut.entities, req.objectIds, fact.objectId) &&
    (req.objectText == "" || req.valueMatches(fact.valueText))
  }

  function Matching(cut: Cut, req: FactLookupRequest): set<Fact> {
    set id | id in cut.facts && Selected(cut, req, cut.facts[id]) :: cut.facts[id]
  }

  /** Most recently observed first, ties by ID. */
  predicate FactBefore(a: Fact, b: Fact) {
    a.observedAt > b.observedAt || (a.observedAt == b.observedAt && Less(a.id, b.id))
  }

  /** The answer of a lookup: exactly the matching facts, in order. */
  ghost predicate IsAnswer(cut: Cut, req: FactLookupRequest, answer: seq<Fact>) {
    Sorted(answer, FactBefore) && forall fact :: fact in answer <==> fact in Matching(cut, req)
  }

  lemma FactBeforeIsStrict()
    ensures Strict(FactBefore)
  {
    forall x
      ensures !FactBefore(x, x)
    {
      LessIrreflexive(x.id);
    }
    forall x, y, z | FactBefore(x, y) && FactBefore(y, z)
      ensures FactBefore(x, z)
    {
      if Less(x.id, y.id) && Less(y.id, z.id) {
        LessTransitive(x.id, y.id, z.id);
      }
    }
  }

  /** A cut and a request fix the answer, so the order in which facts were visited, and
      the path that found them, cannot show. */
  lemma AnswerUnique(cut: Cut, req: FactLookupRequest, a: seq<Fact>, b: seq<Fact>)
    requires IsAnswer(cut, req, a) && IsAnswer(cut, req, b)
    ensures a == b
  {
    hide Matching, FactBefore;
    FactBeforeIsStrict();
    SortedUnique(a, b, FactBefore);
  }

  /** Time-travel lookups are immutable: no mutation read after T changes what a lookup
      as of T returns, whatever its anchors, predicates and scope. */
  lemma LookupImmutable(s: State, d: Derivation, events: seq<Event>, req: FactLookupRequest, before: seq<Fact>, after: seq<Fact>)
    requires Inv(s) && ClockOk(events) && req.temporal.asOf.Some?
    requires forall i :: 0 <= i < |events| ==> req.temporal.asOf.value < events[i].now
    requires IsAnswer(CutAt(s, req.temporal), req, before)
    requires IsAnswer(CutAt(Run(s, d, events), req.temporal), req, after)
    ensures before == after
  {
    hide Inv, CutAt, Run, IsAnswer;
    TimeTravel.LaterRunKeepsPast(s, d, events, req.temporal);
    AnswerUnique(CutAt(s, req.temporal), req, before, after);
  }

  // ----- cursors -----

  const MAX_INT: int := 0x7FFF_FFFF_FFFF_FFFF
  const CURSOR_PREFIX := "offset:"

  /** strconv.Atoi: an optional sign, digits, and the range of a 64-bit int. */
  function Atoi(s: string): Option<int> {
    var negative := s != "" && s[0] == '-';
    var digits := if s != "" && (s[0] == '-' || s[0] == '+') then s[1..] else s;
    var parsed := ParseUint(digits);
    if parsed.None? then None
    else
      var n: int := if negative then 0 - parsed.value else parsed.value;
      if -MAX_INT - 1 <= n <= MAX_INT then Some(n) else None
  }

  function DecodeCursor(cursor: string): Result<nat> {
    if Blank(cursor) then Ok(0)
    else if !(CURSOR_PREFIX <= cursor) then Err(InputInvalid)
    else
      var n := Atoi(cursor[|CURSOR_PREFIX|..]);
      if n.None? || n.value < 0 then Err(InputInvalid) else Ok(n.value)
  }

  function EncodeCursor(offset: nat): string {
    CURSOR_PREFIX + Decimal(offset)
  }

  lemma DecimalHasNoSign(n: nat)
    ensures Decimal(n) != "" && IsDigit(Decimal(n)[0])
  {
    DecimalRoundTrip(n);
  }

  lemma CursorRoundTrip(offset: nat)
    requires offset <= MAX_INT
    ensures DecodeCursor(EncodeCursor(offset)) == Ok(offset) && !Blank(EncodeCursor(offset))
  {
    hide Decimal, NumberOf;
    var cursor := EncodeCursor(offset);
    DecimalRoundTrip(offset);
    DecimalHasNoSign(offset);
    assert cursor[|CURSOR_PREFIX|..] == Decimal(offset);
    assert cursor[0] == 'o' && !IsSpace(cursor[0]);
  }

  function PageLimit(limit: int, total: nat): nat {
    if limit <= 0 || limit > total then total else limit
  }

  function Paginate<T>(items: seq<T>, offset: nat, limit: int): (seq<T>, string) {
    if offset > |items| then ([], "")
    else
      var end := offset + PageLimit(limit, |items| - offset);
      (items[offset..end], if end >= |items| then "" else EncodeCursor(end))
  }

  /** One page of a lookup. */
  ghost predicate IsPage(cut: Cut, req: FactLookupRequest, cursor: string, limit: int, page: seq<Fact>, next: string) {
    exists answer :: IsAnswer(cut, req, answer) && CutsPage(answer, cursor, limit, page, next)
  }

  predicate CutsPage(answer: seq<Fact>, cursor: string, limit: int, page: seq<Fact>, next: string) {
    DecodeCursor(cursor).Ok? && (page, next) == Paginate(answer, DecodeCursor(cursor).value, limit)
  }

  /** Whatever store served it, a page is fixed by the cut, the request and the cursor. */
  lemma PageUnique(cut: Cut, req: FactLookupRequest, cursor: string, limit: int,
                   a: seq<Fact>, aNext: string, b: seq<Fact>, bNext: string)
    requires IsPage(cut, req, cursor, limit, a, aNext) && IsPage(cut, req, cursor, limit, b, bNext)
    ensures a == b && aNext == bNext
  {
    hide IsAnswer, Paginate, DecodeCursor;
    var p :| IsAnswer(cut, req, p) && CutsPage(p, cursor, limit, a, aNext);
    var q :| IsAnswer(cut, req, q) && CutsPage(q, cursor, limit, b, bNext);
    AnswerUnique(cut, req, p, q);
  }

  // ----- walking the pages while the database is written -----

  /** One request of a walk: the mutations committed since the previous one, and the
      page served. */
  datatype Visit = Visit(writes: seq<Event>, limit: int, page: seq<Fact>, next: string)

  function WritesOf(walk: seq<Visit>): seq<Event> {
    if walk == [] then [] else WritesOf(walk[..|walk| - 1]) + walk[|walk| - 1].writes
  }

  function PagesOf(walk: seq<Visit>): seq<Fact> {
    if walk == [] then [] else PagesOf(walk[..|walk| - 1]) + walk[|walk| - 1].page
  }

  function CursorAfter(walk: seq<Visit>): string {
    if walk == [] then "" else walk[|walk| - 1].next
  }

  /** A client that follows cursors from the first page, and stops when there is none. */
  ghost predicate IsWalk(s: State, d: Derivation, req: FactLookupRequest, walk: seq<Visit>)
    decreases |walk|
  {
    walk == [] ||
    (var front, last := walk[..|walk| - 1], walk[|walk| - 1];
     IsWalk(s, d, req, front) && (front != [] ==> CursorAfter(front) != "") &&
     ClockOk(last.writes) &&
     (req.temporal.asOf.Some? ==> forall i :: 0 <= i < |last.writes| ==> req.temporal.asOf.value < last.writes[i].now) &&
     IsPage(CutAt(Run(s, d, WritesOf(walk)), req.temporal), req, CursorAfter(front), last.limit, last.page, last.next))
  }

  lemma {:induction false} WritesAreLater(s: State, d: Derivation, req: FactLookupRequest, walk: seq<Visit>)
    requires IsWalk(s, d, req, walk) && req.temporal.asOf.Some?
    ensures ClockOk(WritesOf(walk))
    ensures forall i :: 0 <= i < |WritesOf(walk)| ==> req.temporal.asOf.value < WritesOf(walk)[i].now
    decreases |walk|
  {
    hide IsPage, Run, CutAt;
    if walk != [] {
      WritesAreLater(s, d, req, walk[..|walk| - 1]);
    }
  }

  /** Where the walk stands in the answer it is reading. */
  ghost predicate Reading(answer: seq<Fact>, walk: seq<Visit>) {
    PagesOf(walk) <= answer &&
    if walk != [] && CursorAfter(walk) == "" then PagesOf(walk) == answer
    else CursorAfter(walk) == (if walk == [] then "" else EncodeCursor(|PagesOf(walk)|))
  }

  lemma PageExtends(answer: seq<Fact>, offset: nat, cursor: string, limit: int, page: seq<Fact>, next: string)
    requires offset <= |answer| <= MAX_INT
    requires cursor == EncodeCursor(offset) || (cursor == "" && offset == 0)
    requires CutsPage(answer, cursor, limit, page, next)
    ensures answer[..offset] + page <= answer
    ensures if next == "" then answer[..offset] + page == answer else next == EncodeCursor(offset + |page|)
  {
    hide Decimal, NumberOf;
    CursorRoundTrip(offset);
    assert DecodeCursor(cursor) == Ok(offset);
    var end := offset + PageLimit(limit, |answer| - offset);
    assert answer[..offset] + page == answer[..end];
    assert end < |answer| ==> EncodeCursor(end) != "";
  }

  lemma {:induction false} WalkReads(s: State, d: Derivation, req: FactLookupRequest, walk: seq<Visit>, answer: seq<Fact>)
    requires Inv(s) && req.temporal.asOf.Some? && IsWalk(s, d, req, walk)
    requires IsAnswer(CutAt(s, req.temporal), req, answer) && |answer| <= MAX_INT
    ensures Reading(answer, walk)
    decreases |walk|
  {
    hide Inv, CutAt, Run, IsAnswer, EncodeCursor, DecodeCursor, Paginate;
    if walk == [] {
      assert PagesOf(walk) == answer[..0];
    } else {
      var front, last := walk[..|walk| - 1], walk[|walk| - 1];
      WalkReads(s, d, req, front, answer);
      WritesAreLater(s, d, req, walk);
      var cut := CutAt(Run(s, d, WritesOf(walk)), req.temporal);
      var served :| IsAnswer(cut, req, served) && CutsPage(served, CursorAfter(front), last.limit, last.page, last.next);
      LookupImmutable(s, d, WritesOf(walk), req, answer, served);
      var offset := |PagesOf(front)|;
      assert PagesOf(front) == answer[..offset];
      PageExtends(answer, offset, CursorAfter(front), last.limit, last.page, last.next);
      assert |PagesOf(walk)| == offset + |last.page|;
    }
  }

  lemma SortedHasNoDuplicates(answer: seq<Fact>)
    requires Sorted(answer, FactBefore)
    ensures forall i, j :: 0 <= i < j < |answer| ==> answer[i] != answer[j]
  {
    FactBeforeIsStrict();
  }

  /** A cursor walk pinned at T visits each matching fact exactly once and in order,
      whatever is written between its pages. */
  lemma WalkVisitsEachFactOnce(s: State, d: Derivation, req: FactLookupRequest, walk: seq<Visit>, answer: seq<Fact>)
    requires Inv(s) && req.temporal.asOf.Some? && IsWalk(s, d, req, walk)
    requires IsAnswer(CutAt(s, req.temporal), req, answer) && |answer| <= MAX_INT
    ensures forall i, j :: 0 <= i < j < |PagesOf(walk)| ==> PagesOf(walk)[i] != PagesOf(walk)[j]
    ensures PagesOf(walk) <= answer
    ensures walk != [] && CursorAfter(walk) == "" ==>
      PagesOf(walk) == answer &&
      forall fact :: fact in PagesOf(walk) <==> fact in Matching(CutAt(s, req.temporal), req)
  {
    hide Inv, CutAt, Run, Matching, FactBefore, PagesOf, IsWalk;
    WalkReads(s, d, req, walk, answer);
    SortedHasNoDuplicates(answer);
  }
}
