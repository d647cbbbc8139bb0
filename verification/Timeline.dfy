/** The timeline (pkg/yeoul/graph.go): events derived from the revision log, ordered by
    what the records say and never by the order in which maps were visited. */
module Timeline {
  import opened Wrappers
  import opened Text
  import opened Sorting
  import opened Identity
  import opened Records
  import opened EngineSpec
  import opened Invariants
  import opened Preservation
  import opened Cuts
  import opened LookupSpec
  import opened Redirects
  import TimeTravel

  datatype EventKind = EpisodeSeen | FactCreated | FactSuperseded | FactRetracted

  datatype TimelineEvent = TimelineEvent(
    eventId: string, kind: EventKind, recordId: string, timestamp: int, summary: string)

  /** An event and its position in the history of its record. */
  datatype Entry = Entry(event: TimelineEvent, order: nat)

  /** `summarize` shortens an episode's content for display. */
  datatype TimelineRequest = TimelineRequest(
    spaceId: string, anchorIds: seq<string>, eventKinds: seq<EventKind>, scope: ScopeFilter,
    temporal: TemporalFilter, descending: bool, summarize: string -> string)

  // ----- the order -----

  /** timelineEntryBefore */
  predicate EntryBefore(l: Entry, r: Entry, descending: bool) {
    if l.event.timestamp != r.event.timestamp then
      if descending then l.event.timestamp > r.event.timestamp else l.event.timestamp < r.event.timestamp
    else if l.event.recordId != r.event.recordId then Less(l.event.recordId, r.event.recordId)
    else if l.order != r.order then l.order < r.order
    else Less(l.event.eventId, r.event.eventId)
  }

  function Before(descending: bool): (Entry, Entry) -> bool {
    (l, r) => EntryBefore(l, r, descending)
  }

  lemma BeforeIsStrict(descending: bool)
    ensures Strict(Before(descending))
  {
    forall x: Entry
      ensures !EntryBefore(x, x, descending)
    {
      LessIrreflexive(x.event.eventId);
    }
    forall x: Entry, y, z | EntryBefore(x, y, descending) && EntryBefore(y, z, descending)
      ensures EntryBefore(x, z, descending)
    {
      BeforeTransitive(x, y, z, descending);
    }
  }

  lemma BeforeTransitive(x: Entry, y: Entry, z: Entry, descending: bool)
    requires EntryBefore(x, y, descending) && EntryBefore(y, z, descending)
    ensures EntryBefore(x, z, descending)
  {
    if Less(x.event.recordId, y.event.recordId) && Less(y.event.recordId, z.event.recordId) {
      LessTransitive(x.event.recordId, y.event.recordId, z.event.recordId);
      LessIrreflexive(x.event.recordId);
    }
    if Less(x.event.eventId, y.event.eventId) && Less(y.event.eventId, z.event.eventId) {
      LessTransitive(x.event.eventId, y.event.eventId, z.event.eventId);
    }
  }

  // ----- lifecycle events of one fact -----

  predicate RevisionBefore(a: FactRevision, b: FactRevision) {
    ComesAfter(b.id, b.txTime, a.id, a.txTime)
  }

  lemma RevisionBeforeIsStrict()
    ensures Strict(RevisionBefore)
  {
    hide ComesAfter;
    forall x: FactRevision
      ensures !RevisionBefore(x, x)
    {
      ComesAfterIsStrictTotal(x.id, x.txTime, x.id, x.txTime, x.id, x.txTime);
    }
    forall x: FactRevision, y, z | RevisionBefore(x, y) && RevisionBefore(y, z)
      ensures RevisionBefore(x, z)
    {
      ComesAfterIsStrictTotal(z.id, z.txTime, y.id, y.txTime, x.id, x.txTime);
    }
  }

  function RevisionsOf(revs: map<string, FactRevision>, factId: string): set<FactRevision> {
    set rid | rid in revs && revs[rid].factId == factId :: revs[rid]
  }

  ghost predicate RevisionsKeyed(revs: map<string, FactRevision>) {
    forall rid :: rid in revs ==> revs[rid].id == rid
  }

  lemma RevisionsTotal(revs: map<string, FactRevision>, factId: string)
    requires RevisionsKeyed(revs)
    ensures forall x, y :: x in RevisionsOf(revs, factId) && y in RevisionsOf(revs, factId) && x != y ==>
      RevisionBefore(x, y) || RevisionBefore(y, x)
  {
    hide ComesAfter;
    forall x, y | x in RevisionsOf(revs, factId) && y in RevisionsOf(revs, factId) && x != y
      ensures RevisionBefore(x, y) || RevisionBefore(y, x)
    {
      ComesAfterIsStrictTotal(x.id, x.txTime, y.id, y.txTime, x.id, x.txTime);
    }
  }

  /** A fact's revisions in revision order. */
  ghost function RevisionHistory(revs: map<string, FactRevision>, factId: string): (out: seq<FactRevision>)
    requires RevisionsKeyed(revs)
    ensures Sorted(out, RevisionBefore) && forall r :: r in out <==> r in RevisionsOf(revs, factId)
  {
    assert exists out :: Sorted(out, RevisionBefore) && forall r :: r in out <==> r in RevisionsOf(revs, factId) by {
      RevisionBeforeIsStrict();
      RevisionsTotal(revs, factId);
      var out := SortedExists(RevisionsOf(revs, factId), RevisionBefore);
    }
    var out :| Sorted(out, RevisionBefore) && forall r :: r in out <==> r in RevisionsOf(revs, factId);
    out
  }

  function LifecycleEvent(factId: string, r: FactRevision): Option<TimelineEvent> {
    match r.status
    case Superseded =>
      if r.updatedAt == UNSET then None
      else Some(TimelineEvent("evt:" + factId + ":superseded", FactSuperseded, factId, r.updatedAt, r.predicate_))
    case Retracted =>
      var at := ChooseTime(r.retractedAt, r.updatedAt);
      if at == UNSET then None
      else Some(TimelineEvent("evt:" + factId + ":retracted", FactRetracted, factId, at, r.retractionReason))
    case _ => None
  }

  predicate HasKind(events: seq<TimelineEvent>, kind: EventKind) {
    exists i :: 0 <= i < |events| && events[i].kind == kind
  }

  /** The loop of factLifecycleEvents: each kind is emitted once. */
  function Emitted(factId: string, revisions: seq<FactRevision>, filter: TemporalFilter): seq<TimelineEvent> {
    if revisions == [] then []
    else
      var front, last := Emitted(factId, revisions[..|revisions| - 1], filter), revisions[|revisions| - 1];
      var event := LifecycleEvent(factId, last);
      if FactVisibleAt(ToFact(last), filter) && event.Some? && !HasKind(front, event.value.kind)
      then front + [event.value] else front
  }

  /** factLifecycleEvents. A fact without revisions falls back to its current status. */
  ghost function LifecycleOf(revs: map<string, FactRevision>, fact: Fact, filter: TemporalFilter): seq<TimelineEvent>
    requires RevisionsKeyed(revs)
  {
    var history := RevisionHistory(revs, fact.id);
    Emitted(fact.id, if history == [] then [NewFactRevision("", fact, "", fact.updatedAt)] else history, filter)
  }

  // ----- entries -----

  predicate EventVisible(event: TimelineEvent, filter: TemporalFilter) {
    (filter.asOf.Some? ==> event.timestamp <= filter.asOf.value) &&
    (filter.observedFrom.Some? ==> event.timestamp >= filter.observedFrom.value) &&
    (filter.observedTo.Some? ==> event.timestamp <= filter.observedTo.value)
  }

  function VisibleEvents(events: seq<TimelineEvent>, filter: TemporalFilter): seq<TimelineEvent> {
    if events == [] then []
    else
      var front, last := VisibleEvents(events[..|events| - 1], filter), events[|events| - 1];
      if EventVisible(last, filter) then front + [last] else front
  }

  predicate KindAllowed(kinds: seq<EventKind>, kind: EventKind) {
    kinds == [] || kind in kinds
  }

  /** Visible events are numbered; those of other kinds than asked for are dropped. */
  function Numbered(events: seq<TimelineEvent>, kinds: seq<EventKind>): set<Entry> {
    set i | 0 <= i < |events| && KindAllowed(kinds, events[i].kind) :: Entry(events[i], i)
  }

  /** matchesAnchors: an empty ID matches no anchor. */
  predicate AnchorsMatch(anchors: set<string>, ids: set<string>) {
    anchors == {} || (anchors * ids) - {""} != {}
  }

  function AnchorSet(entities: map<string, Entity>, ids: seq<string>): set<string> {
    set id | id in ids :: Canonical(entities, id)
  }

  /** Inactive facts have a history too. */
  function Temporal(req: TimelineRequest): TemporalFilter {
    req.temporal.(includeInactive := true)
  }

  predicate EpisodeShown(cut: Cut, req: TimelineRequest, id: string) {
    id in cut.episodes && cut.episodes[id].episode.spaceId == SpaceOf(req.spaceId) &&
    EpisodeInScope(cut.episodes[id], req.scope) &&
    AnchorsMatch(AnchorSet(cut.entities, req.anchorIds), {cut.episodes[id].episode.id, cut.episodes[id].episode.sourceId})
  }

  function EpisodeEvents(req: TimelineRequest, episode: Episode): seq<TimelineEvent> {
    VisibleEvents(
      [TimelineEvent("evt:" + episode.id, EpisodeSeen, episode.id, ChooseTime(episode.observedAt, episode.ingestedAt),
                     req.summarize(episode.content))], Temporal(req))
  }

  /** Whether a visible version passes the request's filters. */
  predicate Passes(cut: Cut, req: TimelineRequest, record: Fact) {
    record.spaceId == SpaceOf(req.spaceId) && InScope(cut, record, req.scope) &&
    AnchorsMatch(
      AnchorSet(cut.entities, req.anchorIds),
      {Canonical(cut.entities, record.subjectId), Canonical(cut.entities, record.objectId), record.id} +
      (set e | e in record.support))
  }

  predicate FactShown(cut: Cut, req: TimelineRequest, id: string) {
    id in cut.facts && Passes(cut, req, cut.facts[id])
  }

  ghost function FactEvents(revs: map<string, FactRevision>, req: TimelineRequest, fact: Fact): seq<TimelineEvent>
    requires RevisionsKeyed(revs)
  {
    var created := TimelineEvent("evt:" + fact.id + ":created", FactCreated, fact.id,
                                 ChooseTime(fact.observedAt, fact.createdAt), fact.predicate_);
    VisibleEvents([created] + LifecycleOf(revs, fact, Temporal(req)), Temporal(req))
  }

  predicate EpisodeEntry(cut: Cut, req: TimelineRequest, id: string, entry: Entry) {
    EpisodeShown(cut, req, id) && entry in Numbered(EpisodeEvents(req, cut.episodes[id].episode), req.eventKinds)
  }

  ghost predicate FactEntry(cut: Cut, revs: map<string, FactRevision>, req: TimelineRequest, id: string, entry: Entry)
    requires RevisionsKeyed(revs)
  {
    FactShown(cut, req, id) && entry in Numbered(FactEvents(revs, req, cut.facts[id]), req.eventKinds)
  }

  /** Every entry of the timeline. */
  ghost predicate IsEntry(cut: Cut, revs: map<string, FactRevision>, req: TimelineRequest, entry: Entry)
    requires RevisionsKeyed(revs)
  {
    (exists id :: EpisodeEntry(cut, req, id, entry)) || (exists id :: FactEntry(cut, revs, req, id, entry))
  }

  ghost predicate IsTimeline(s: State, req: TimelineRequest, entries: seq<Entry>)
    requires RevisionsKeyed(s.factRevisions)
  {
    Sorted(entries, Before(req.descending)) &&
    forall e :: e in entries <==> IsEntry(CutAt(s, Temporal(req)), s.factRevisions, req, e)
  }

  /** The state and the request fix the timeline. */
  lemma TimelineUnique(s: State, req: TimelineRequest, a: seq<Entry>, b: seq<Entry>)
    requires RevisionsKeyed(s.factRevisions) && IsTimeline(s, req, a) && IsTimeline(s, req, b)
    ensures a == b
  {
    hide IsEntry, CutAt;
    BeforeIsStrict(req.descending);
    SortedUnique(a, b, Before(req.descending));
  }

  // ----- what the lifecycle events are -----

  /** Each kind is emitted at most once, and none that a visible revision calls for is
      missed. */
  lemma {:induction false} EmittedShape(factId: string, revisions: seq<FactRevision>, filter: TemporalFilter)
    ensures var events := Emitted(factId, revisions, filter);
            (forall i, j :: 0 <= i < j < |events| ==> events[i].kind != events[j].kind) &&
            (forall r :: r in revisions && FactVisibleAt(ToFact(r), filter) && LifecycleEvent(factId, r).Some? ==>
              HasKind(events, LifecycleEvent(factId, r).value.kind))
  {
    hide FactVisibleAt, LifecycleEvent;
    if revisions != [] {
      var n := |revisions| - 1;
      EmittedShape(factId, revisions[..n], filter);
      var front, events := Emitted(factId, revisions[..n], filter), Emitted(factId, revisions, filter);
      forall i, j | 0 <= i < j < |events|
        ensures events[i].kind != events[j].kind
      {
        if j == |front| {
          assert events[i] == front[i] && !HasKind(front, events[j].kind);
        } else {
          assert events[i] == front[i] && events[j] == front[j];
        }
      }
      forall r | r in revisions && FactVisibleAt(ToFact(r), filter) && LifecycleEvent(factId, r).Some?
        ensures HasKind(events, LifecycleEvent(factId, r).value.kind)
      {
        KindsStay(front, events);
        if r !in revisions[..n] {
          assert r == revisions[n];
          assert events != front ==> events[|events| - 1].kind == LifecycleEvent(factId, r).value.kind;
        }
      }
    }
  }

  lemma {:induction false} EventOrigin(factId: string, revisions: seq<FactRevision>, filter: TemporalFilter, e: TimelineEvent)
    returns (r: FactRevision)
    requires e in Emitted(factId, revisions, filter)
    ensures r in revisions && FactVisibleAt(ToFact(r), filter) && LifecycleEvent(factId, r) == Some(e)
  {
    hide FactVisibleAt, LifecycleEvent;
    var n := |revisions| - 1;
    if e in Emitted(factId, revisions[..n], filter) {
      r := EventOrigin(factId, revisions[..n], filter, e);
    } else {
      r := revisions[n];
    }
  }

  lemma KindsStay(a: seq<TimelineEvent>, b: seq<TimelineEvent>)
    requires a <= b
    ensures forall kind :: HasKind(a, kind) ==> HasKind(b, kind)
  {
    forall kind | HasKind(a, kind)
      ensures HasKind(b, kind)
    {
      var i :| 0 <= i < |a| && a[i].kind == kind;
      assert b[i].kind == kind;
    }
  }

  lemma RevisionStamps(s: State, r: FactRevision, id: string)
    requires Inv(s) && r in RevisionsOf(s.factRevisions, id)
    ensures id in s.facts && r.createdAt == s.facts[id].createdAt && SameEndpoints(ToFact(r), s.facts[id])
    ensures 0 < r.createdAt <= r.updatedAt == r.txTime && r.factId == id
    ensures r.status == Superseded ==> SupersededAt(s.facts, s.facts[id]) == Some(r.updatedAt)
    ensures r.status == Retracted ==> s.facts[id].status == Retracted && r.retractedAt == r.updatedAt == s.facts[id].retractedAt
  {
    hide IdsUnique, RefsOk, EntityLog, LivesOk, StampsOk, Current, Generated, SupersededAt;
    var rid :| rid in s.factRevisions && s.factRevisions[rid] == r;
    assert RevisionOk(s.facts, rid, r, s.sequence) && PhaseOk(s.facts, r);
    TransitionStamps(s, id);
  }

  /** The stamps of a life are ordered: created, superseded, retracted. */
  lemma TransitionStamps(s: State, id: string)
    requires Inv(s) && id in s.facts
    ensures s.facts[id].id == id && 0 < s.facts[id].createdAt
    ensures SupersededAt(s.facts, s.facts[id]).Some? ==> s.facts[id].createdAt < SupersededAt(s.facts, s.facts[id]).value
    ensures s.facts[id].status == Retracted ==> s.facts[id].createdAt < s.facts[id].retractedAt
    ensures s.facts[id].status == Retracted && SupersededAt(s.facts, s.facts[id]).Some? ==>
      SupersededAt(s.facts, s.facts[id]).value < s.facts[id].retractedAt
  {
    hide IdsUnique, RefsOk, EntityLog, StampsOk, PhasesOk, RevisionOk, Current;
    assert LifeOk(s.facts, s.facts[id]);
  }

  lemma KeyedRevisions(s: State)
    requires Inv(s)
    ensures RevisionsKeyed(s.factRevisions)
  {
    hide IdsUnique, RefsOk, EntityLog, Lifecycle, FactsCurrent, Generated, KeysMatch;
    assert forall rid :: rid in s.factRevisions ==> RevisionOk(s.facts, rid, s.factRevisions[rid], s.sequence);
  }

  /** No filter but the instant. */
  predicate Neutral(filter: TemporalFilter) {
    filter.validAt.None? && filter.observedFrom.None? && filter.observedTo.None? &&
    filter.validFrom.None? && filter.validTo.None? && filter.includeInactive
  }

  lemma NeutralVisible(fact: Fact, filter: TemporalFilter)
    requires Neutral(filter)
    ensures FactVisibleAt(fact, filter) <==> (filter.asOf.Some? ==> fact.createdAt <= filter.asOf.value)
  {
  }

  lemma {:induction false} EmittedSame(factId: string, revisions: seq<FactRevision>, a: TemporalFilter, b: TemporalFilter)
    requires forall r :: r in revisions ==> (FactVisibleAt(ToFact(r), a) <==> FactVisibleAt(ToFact(r), b))
    ensures Emitted(factId, revisions, a) == Emitted(factId, revisions, b)
  {
    hide FactVisibleAt, LifecycleEvent;
    if revisions != [] {
      EmittedSame(factId, revisions[..|revisions| - 1], a, b);
      assert revisions[|revisions| - 1] in revisions;
    }
  }

  const LIVE := TemporalFilter(None, None, None, None, None, None, true)

  /** The lifecycle events of a fact, whenever they happened. */
  ghost function EventsOfFact(s: State, id: string): seq<TimelineEvent>
    requires Inv(s) && id in s.facts
  {
    KeyedRevisions(s);
    Emitted(id, RevisionHistory(s.factRevisions, id), LIVE)
  }

  /** What the log says happened to a fact: superseded when its successor was created,
      retracted at its retraction, each once, and the first strictly before the
      second. A retraction does not erase an earlier supersession. */
  lemma LifecycleExact(s: State, id: string)
    requires Inv(s) && id in s.facts
    ensures var events := EventsOfFact(s, id);
            (forall i, j :: 0 <= i < j < |events| ==> events[i].kind != events[j].kind) &&
            (HasKind(events, FactSuperseded) <==> SupersededAt(s.facts, s.facts[id]).Some?) &&
            (HasKind(events, FactRetracted) <==> s.facts[id].status == Retracted)
    ensures forall e :: e in EventsOfFact(s, id) ==> e.recordId == id && LifecycleStamp(s, id, e)
  {
    hide Inv, Emitted, SupersededAt, Stamped, LifecycleEvent, FactVisibleAt, RevisionsOf;
    KeyedRevisions(s);
    var history := RevisionHistory(s.factRevisions, id);
    EmittedShape(id, history, LIVE);
    var events := Emitted(id, history, LIVE);
    assert events == EventsOfFact(s, id);
    forall e | e in events
      ensures e.recordId == id && LifecycleStamp(s, id, e)
    {
      var r := EventOrigin(id, history, LIVE, e);
      EventStamp(s, id, r, e);
    }
    if HasKind(events, FactSuperseded) {
      var i :| 0 <= i < |events| && events[i].kind == FactSuperseded;
      assert LifecycleStamp(s, id, events[i]);
    }
    if HasKind(events, FactRetracted) {
      var i :| 0 <= i < |events| && events[i].kind == FactRetracted;
      assert LifecycleStamp(s, id, events[i]);
    }
    if SupersededAt(s.facts, s.facts[id]).Some? {
      var r := RecordedSupersession(s, id);
      EventExists(s, id, r);
      NeutralVisible(ToFact(r), LIVE);
    }
    if s.facts[id].status == Retracted {
      var r := RecordedRetraction(s, id);
      EventExists(s, id, r);
      NeutralVisible(ToFact(r), LIVE);
    }
  }

  /** An event is stamped when the fact's records say the transition happened. */
  ghost predicate LifecycleStamp(s: State, id: string, e: TimelineEvent)
    requires id in s.facts
  {
    match e.kind
    case FactSuperseded => SupersededAt(s.facts, s.facts[id]) == Some(e.timestamp)
    case FactRetracted => s.facts[id].status == Retracted && e.timestamp == s.facts[id].retractedAt
    case _ => false
  }

  lemma EventStamp(s: State, id: string, r: FactRevision, e: TimelineEvent)
    requires Inv(s) && id in s.facts && r in RevisionsOf(s.factRevisions, id) && LifecycleEvent(id, r) == Some(e)
    ensures e.recordId == id && LifecycleStamp(s, id, e)
  {
    hide Inv, SupersededAt, RevisionsOf;
    RevisionStamps(s, r, id);
  }

  lemma EventExists(s: State, id: string, r: FactRevision)
    requires Inv(s) && r in RevisionsOf(s.factRevisions, id)
    ensures r.status == Superseded ==> LifecycleEvent(id, r).Some? && LifecycleEvent(id, r).value.kind == FactSuperseded
    ensures r.status == Retracted ==> LifecycleEvent(id, r).Some? && LifecycleEvent(id, r).value.kind == FactRetracted
  {
    hide Inv, SupersededAt, RevisionsOf;
    RevisionStamps(s, r, id);
  }

  lemma RecordedSupersession(s: State, id: string) returns (r: FactRevision)
    requires Inv(s) && id in s.facts && SupersededAt(s.facts, s.facts[id]).Some?
    ensures r in RevisionsOf(s.factRevisions, id) && r.status == Superseded
  {
    hide Core, LivesOk, PhasesOk, SupersededAt;
    assert Stamped(s.factRevisions, id, Superseded, SupersededAt(s.facts, s.facts[id]).value);
    var rid :| rid in s.factRevisions && s.factRevisions[rid].factId == id && s.factRevisions[rid].status == Superseded;
    r := s.factRevisions[rid];
  }

  lemma RecordedRetraction(s: State, id: string) returns (r: FactRevision)
    requires Inv(s) && id in s.facts && s.facts[id].status == Retracted
    ensures r in RevisionsOf(s.factRevisions, id) && r.status == Retracted
  {
    hide IdsUnique, RefsOk, EntityLog, Lifecycle, RevisionOk, RevisionOrder;
    assert Current(s.factRevisions, s.facts[id]);
    var rid :| LastOf(s.factRevisions, rid) && ToFact(s.factRevisions[rid]) == s.facts[id];
    r := s.factRevisions[rid];
    assert s.facts[id].id == id;
  }

  // ----- the as-of timeline is a prefix of the live one -----

  /** The superseded and retracted events, listed in whatever order. */
  predicate LifecycleKinds(kinds: seq<EventKind>) {
    FactSuperseded in kinds && FactRetracted in kinds &&
    forall i :: 0 <= i < |kinds| ==> kinds[i] == FactSuperseded || kinds[i] == FactRetracted
  }

  /** A request for these events, filtered by nothing else. */
  predicate LifecycleRequest(req: TimelineRequest) {
    req.anchorIds == [] && LifecycleKinds(req.eventKinds) &&
    req.scope == ScopeFilter([], [], [], [], []) && Neutral(Temporal(req))
  }

  /** The lifecycle events of the facts of a space. */
  ghost predicate Happened(s: State, spaceId: string, e: TimelineEvent)
    requires Inv(s)
  {
    e.recordId in s.facts && s.facts[e.recordId].spaceId == spaceId && e in EventsOfFact(s, e.recordId)
  }

  lemma {:induction false} VisibleIs(events: seq<TimelineEvent>, filter: TemporalFilter)
    ensures forall e :: e in VisibleEvents(events, filter) <==> e in events && EventVisible(e, filter)
  {
    hide EventVisible;
    if events != [] {
      VisibleIs(events[..|events| - 1], filter);
      assert events == events[..|events| - 1] + [events[|events| - 1]];
    }
  }

  lemma NumberedIs(events: seq<TimelineEvent>, kinds: seq<EventKind>, e: TimelineEvent)
    ensures (exists n: nat :: Entry(e, n) in Numbered(events, kinds)) <==> e in events && KindAllowed(kinds, e.kind)
  {
    if e in events && KindAllowed(kinds, e.kind) {
      var i :| 0 <= i < |events| && events[i] == e;
      assert Entry(e, i) in Numbered(events, kinds);
    }
  }

  lemma NoScope(cut: Cut, fact: Fact, scope: ScopeFilter)
    requires scope == ScopeFilter([], [], [], [], [])
    ensures InScope(cut, fact, scope)
  {
  }

  lemma VersionWhenCreated(s: State, id: string, filter: TemporalFilter)
    requires Inv(s) && id in s.facts && Neutral(filter)
    ensures var version := FactVersionAt(s.factRevisions, s.facts[id], filter);
            (version.Some? <==> (filter.asOf.Some? ==> s.facts[id].createdAt <= filter.asOf.value)) &&
            (version.Some? ==> version.value.id == id && version.value.spaceId == s.facts[id].spaceId)
  {
    hide Inv, LatestFactRevision, FactVisibleAt;
    TransitionStamps(s, id);
    FactStamps(s, id);
    NeutralVisible(s.facts[id], filter);
    if filter.asOf.Some? {
      var latest := LatestFactRevision(s.factRevisions, id, filter.asOf.value);
      if latest.Some? {
        LatestIsRevision(s.factRevisions, id, filter.asOf.value);
        RevisionStamps(s, latest.value, id);
        NeutralVisible(ToFact(latest.value), filter);
      } else {
        TimeTravel.UnrecordedFactIsFuture(s, id, filter.asOf.value);
      }
    }
  }

  lemma LatestIsRevision(revs: map<string, FactRevision>, id: string, at: int)
    ensures var latest := LatestFactRevision(revs, id, at);
            latest.Some? ==> latest.value in RevisionsOf(revs, id)
  {
    hide ComesAfter;
  }

  /** Without other filters a fact is shown exactly when it exists at the instant. */
  ghost predicate ShownExactly(s: State, req: TimelineRequest, id: string) {
    var cut := CutAt(s, Temporal(req));
    (FactShown(cut, req, id) <==>
      id in s.facts && s.facts[id].spaceId == SpaceOf(req.spaceId) &&
      (req.temporal.asOf.Some? ==> s.facts[id].createdAt <= req.temporal.asOf.value)) &&
    (id in cut.facts ==> cut.facts[id].id == id)
  }

  lemma ShownWhenCreated(s: State, req: TimelineRequest, id: string)
    requires Inv(s) && LifecycleRequest(req)
    ensures ShownExactly(s, req, id)
  {
    hide Inv, InScope, Canonical, EntitiesAt, EpisodesAt, SourcesAt, SpaceOf, FactVersionAt;
    if id in s.facts {
      VersionWhenCreated(s, id, Temporal(req));
    }
    var cut := CutAt(s, Temporal(req));
    if id in cut.facts {
      NoScope(cut, cut.facts[id], req.scope);
    }
  }

  /** The log emits the same events for every instant at which the fact exists. */
  lemma EmittedAtAnyInstant(s: State, req: TimelineRequest, id: string)
    requires Inv(s) && LifecycleRequest(req) && RevisionsKeyed(s.factRevisions) && id in s.facts
    requires req.temporal.asOf.Some? ==> s.facts[id].createdAt <= req.temporal.asOf.value
    ensures RevisionHistory(s.factRevisions, id) != []
    ensures Emitted(id, RevisionHistory(s.factRevisions, id), Temporal(req)) == EventsOfFact(s, id)
  {
    hide Inv, FactVisibleAt, Emitted, RevisionsOf;
    var history := RevisionHistory(s.factRevisions, id);
    forall r | r in history
      ensures FactVisibleAt(ToFact(r), Temporal(req)) && FactVisibleAt(ToFact(r), LIVE)
    {
      RevisionStamps(s, r, id);
      NeutralVisible(ToFact(r), Temporal(req));
      NeutralVisible(ToFact(r), LIVE);
    }
    EmittedSame(id, history, Temporal(req), LIVE);
    var first := CreationRecorded(s, id);
    assert first in history;
  }

  lemma CreationRecorded(s: State, id: string) returns (r: FactRevision)
    requires Inv(s) && id in s.facts
    ensures r in RevisionsOf(s.factRevisions, id)
  {
    hide Core, LivesOk, PhasesOk, SupersededAt;
    assert Stamped(s.factRevisions, id, Active, s.facts[id].createdAt);
    var rid :| rid in s.factRevisions && s.factRevisions[rid].factId == id;
    r := s.factRevisions[rid];
  }

  predicate ByInstant(req: TimelineRequest, e: TimelineEvent) {
    req.temporal.asOf.Some? ==> e.timestamp <= req.temporal.asOf.value
  }

  /** Of a fact's events, the request keeps the lifecycle ones up to its instant. */
  lemma FactEventsAre(revs: map<string, FactRevision>, req: TimelineRequest, fact: Fact, e: TimelineEvent)
    requires RevisionsKeyed(revs) && LifecycleRequest(req)
    ensures e in FactEvents(revs, req, fact) && KindAllowed(req.eventKinds, e.kind) <==>
            e in LifecycleOf(revs, fact, Temporal(req)) && KindAllowed(req.eventKinds, e.kind) && ByInstant(req, e)
  {
    hide LifecycleOf, VisibleEvents;
    var created := TimelineEvent("evt:" + fact.id + ":created", FactCreated, fact.id,
                                 ChooseTime(fact.observedAt, fact.createdAt), fact.predicate_);
    VisibleIs([created] + LifecycleOf(revs, fact, Temporal(req)), Temporal(req));
  }

  lemma EpisodeKinds(req: TimelineRequest, episode: Episode, e: TimelineEvent)
    requires LifecycleRequest(req)
    ensures !(e in EpisodeEvents(req, episode) && KindAllowed(req.eventKinds, e.kind))
  {
    hide EventVisible;
    VisibleIs([TimelineEvent("evt:" + episode.id, EpisodeSeen, episode.id, ChooseTime(episode.observedAt, episode.ingestedAt),
                     req.summarize(episode.content))], Temporal(req));
  }

  lemma NoEpisodeEntry(cut: Cut, req: TimelineRequest, id: string, entry: Entry)
    requires LifecycleRequest(req)
    ensures !EpisodeEntry(cut, req, id, entry)
  {
    hide EpisodeEvents, Numbered, EpisodeShown;
    if EpisodeShown(cut, req, id) {
      EpisodeIsThere(cut, req, id);
      var events := EpisodeEvents(req, cut.episodes[id].episode);
      NumberedIs(events, req.eventKinds, entry.event);
      EpisodeKinds(req, cut.episodes[id].episode, entry.event);
      assert entry == Entry(entry.event, entry.order);
    }
  }

  lemma EpisodeIsThere(cut: Cut, req: TimelineRequest, id: string)
    requires EpisodeShown(cut, req, id)
    ensures id in cut.episodes
  {
  }

  lemma LifecycleIs(s: State, req: TimelineRequest, id: string, fact: Fact)
    requires Inv(s) && LifecycleRequest(req) && RevisionsKeyed(s.factRevisions) && id in s.facts && fact.id == id
    requires req.temporal.asOf.Some? ==> s.facts[id].createdAt <= req.temporal.asOf.value
    ensures LifecycleOf(s.factRevisions, fact, Temporal(req)) == EventsOfFact(s, id)
  {
    EmittedAtAnyInstant(s, req, id);
  }

  lemma FactEntryHappened(s: State, req: TimelineRequest, id: string, entry: Entry)
    requires Inv(s) && LifecycleRequest(req) && RevisionsKeyed(s.factRevisions)
    requires FactEntry(CutAt(s, Temporal(req)), s.factRevisions, req, id, entry)
    ensures Happened(s, SpaceOf(req.spaceId), entry.event) && ByInstant(req, entry.event)
  {
    hide Inv, FactEvents, LifecycleOf, Numbered, InScope, EntitiesAt, EpisodesAt, SourcesAt, FactVersionAt, SpaceOf, EventsOfFact,
         AnchorsMatch, LifecycleStamp;
    ShownWhenCreated(s, req, id);
    var fact := CutAt(s, Temporal(req)).facts[id];
    NumberedIs(FactEvents(s.factRevisions, req, fact), req.eventKinds, entry.event);
    assert entry == Entry(entry.event, entry.order);
    FactEventsAre(s.factRevisions, req, fact, entry.event);
    LifecycleIs(s, req, id, fact);
    LifecycleExact(s, id);
  }

  lemma HappenedHasEntry(s: State, req: TimelineRequest, e: TimelineEvent) returns (n: nat)
    requires Inv(s) && LifecycleRequest(req) && RevisionsKeyed(s.factRevisions)
    requires Happened(s, SpaceOf(req.spaceId), e) && ByInstant(req, e)
    ensures FactEntry(CutAt(s, Temporal(req)), s.factRevisions, req, e.recordId, Entry(e, n))
  {
    hide Inv, FactEvents, LifecycleOf, Numbered, InScope, EntitiesAt, EpisodesAt, SourcesAt, FactVersionAt, SpaceOf, EventsOfFact,
         AnchorsMatch, SupersededAt;
    var id := e.recordId;
    LifecycleExact(s, id);
    TransitionStamps(s, id);
    ShownWhenCreated(s, req, id);
    var fact := CutAt(s, Temporal(req)).facts[id];
    LifecycleIs(s, req, id, fact);
    FactEventsAre(s.factRevisions, req, fact, e);
    NumberedIs(FactEvents(s.factRevisions, req, fact), req.eventKinds, e);
    n :| Entry(e, n) in Numbered(FactEvents(s.factRevisions, req, fact), req.eventKinds);
  }

  /** The entries of a lifecycle timeline are the transitions that happened, up to the
      instant of the read. */
  lemma EntryHappened(s: State, req: TimelineRequest, e: TimelineEvent)
    requires Inv(s) && LifecycleRequest(req) && RevisionsKeyed(s.factRevisions)
    ensures (exists n: nat :: IsEntry(CutAt(s, Temporal(req)), s.factRevisions, req, Entry(e, n))) <==>
            Happened(s, SpaceOf(req.spaceId), e) && ByInstant(req, e)
  {
    hide Inv, CutAt, SpaceOf, EpisodeEntry, FactEntry, Happened, ByInstant, LifecycleRequest;
    var cut, revs := CutAt(s, Temporal(req)), s.factRevisions;
    if n: nat :| IsEntry(cut, revs, req, Entry(e, n)) {
      forall id
        ensures !EpisodeEntry(cut, req, id, Entry(e, n))
      {
        NoEpisodeEntry(cut, req, id, Entry(e, n));
      }
      var id :| FactEntry(cut, revs, req, id, Entry(e, n));
      FactEntryHappened(s, req, id, Entry(e, n));
    }
    if Happened(s, SpaceOf(req.spaceId), e) && ByInstant(req, e) {
      var n := HappenedHasEntry(s, req, e);
      assert IsEntry(cut, revs, req, Entry(e, n));
    }
  }

  ghost predicate KindsDistinct(events: seq<TimelineEvent>) {
    forall i, j :: 0 <= i < j < |events| ==> events[i].kind != events[j].kind
  }

  lemma {:induction false} VisibleDistinct(events: seq<TimelineEvent>, filter: TemporalFilter)
    requires KindsDistinct(events)
    ensures KindsDistinct(VisibleEvents(events, filter))
  {
    hide EventVisible;
    if events != [] {
      var n := |events| - 1;
      VisibleDistinct(events[..n], filter);
      VisibleIs(events[..n], filter);
      var front := VisibleEvents(events[..n], filter);
      forall i | 0 <= i < |front|
        ensures front[i].kind != events[n].kind
      {
        assert front[i] in events[..n];
      }
    }
  }

  /** A fact's lifecycle transition has one entry: two entries of one record never share
      an instant. */
  lemma EntryUnique(s: State, req: TimelineRequest, a: Entry, b: Entry)
    requires Inv(s) && LifecycleRequest(req) && RevisionsKeyed(s.factRevisions)
    requires IsEntry(CutAt(s, Temporal(req)), s.factRevisions, req, a)
    requires IsEntry(CutAt(s, Temporal(req)), s.factRevisions, req, b)
    requires a.event.recordId == b.event.recordId && a.event.timestamp == b.event.timestamp
    ensures a == b
  {
    hide Inv, CutAt, SpaceOf, EpisodeEntry, FactEntry, LifecycleRequest;
    var cut, revs := CutAt(s, Temporal(req)), s.factRevisions;
    forall id, entry
      ensures !EpisodeEntry(cut, req, id, entry)
    {
      NoEpisodeEntry(cut, req, id, entry);
    }
    var x :| FactEntry(cut, revs, req, x, a);
    var y :| FactEntry(cut, revs, req, y, b);
    FactEntryOwner(s, req, x, a);
    FactEntryOwner(s, req, y, b);
    FactEntryUnique(s, req, x, a, b);
  }

  lemma FactEntryOwner(s: State, req: TimelineRequest, id: string, entry: Entry)
    requires Inv(s) && LifecycleRequest(req) && RevisionsKeyed(s.factRevisions)
    requires FactEntry(CutAt(s, Temporal(req)), s.factRevisions, req, id, entry)
    ensures entry.event.recordId == id && id in s.facts && entry.event in EventsOfFact(s, id)
  {
    hide Inv, FactEvents, LifecycleOf, Numbered, InScope, EntitiesAt, EpisodesAt, SourcesAt, FactVersionAt, SpaceOf, EventsOfFact,
         AnchorsMatch, LifecycleStamp;
    ShownWhenCreated(s, req, id);
    var fact := CutAt(s, Temporal(req)).facts[id];
    NumberedIs(FactEvents(s.factRevisions, req, fact), req.eventKinds, entry.event);
    assert entry == Entry(entry.event, entry.order);
    FactEventsAre(s.factRevisions, req, fact, entry.event);
    LifecycleIs(s, req, id, fact);
    LifecycleExact(s, id);
  }

  lemma NumberedUnique(events: seq<TimelineEvent>, kinds: seq<EventKind>, a: Entry, b: Entry)
    requires KindsDistinct(events) && a in Numbered(events, kinds) && b in Numbered(events, kinds)
    requires a.event.kind == b.event.kind
    ensures a == b
  {
  }

  /** Creation, supersession and retraction are three kinds, each met at most once. */
  lemma FactEventsDistinct(s: State, req: TimelineRequest, id: string, fact: Fact)
    requires Inv(s) && LifecycleRequest(req) && RevisionsKeyed(s.factRevisions) && id in s.facts && fact.id == id
    requires req.temporal.asOf.Some? ==> s.facts[id].createdAt <= req.temporal.asOf.value
    ensures KindsDistinct(FactEvents(s.factRevisions, req, fact))
  {
    hide Inv, EventsOfFact, LifecycleOf, SupersededAt, VisibleEvents, LifecycleRequest;
    LifecycleExact(s, id);
    LifecycleIs(s, req, id, fact);
    var created := TimelineEvent("evt:" + fact.id + ":created", FactCreated, fact.id,
                                 ChooseTime(fact.observedAt, fact.createdAt), fact.predicate_);
    var life := EventsOfFact(s, id);
    forall i | 0 <= i < |life|
      ensures life[i].kind != FactCreated
    {
      assert life[i] in life;
    }
    VisibleDistinct([created] + life, Temporal(req));
  }

  lemma SameStampSameKind(s: State, id: string, a: TimelineEvent, b: TimelineEvent)
    requires Inv(s) && id in s.facts && LifecycleStamp(s, id, a) && LifecycleStamp(s, id, b) && a.timestamp == b.timestamp
    ensures a.kind == b.kind
  {
    hide Inv, SupersededAt;
    TransitionStamps(s, id);
  }

  lemma FactEntryUnique(s: State, req: TimelineRequest, id: string, a: Entry, b: Entry)
    requires Inv(s) && LifecycleRequest(req) && RevisionsKeyed(s.factRevisions)
    requires FactEntry(CutAt(s, Temporal(req)), s.factRevisions, req, id, a)
    requires FactEntry(CutAt(s, Temporal(req)), s.factRevisions, req, id, b)
    requires a.event.timestamp == b.event.timestamp
    ensures a == b
  {
    hide Inv, CutAt, FactEvents, Numbered, InScope, SpaceOf, EventsOfFact, AnchorsMatch, LifecycleStamp, Canonical, LifecycleRequest;
    FactEntryOwner(s, req, id, a);
    FactEntryOwner(s, req, id, b);
    LifecycleExact(s, id);
    SameStampSameKind(s, id, a.event, b.event);
    ShownWhenCreated(s, req, id);
    var fact := CutAt(s, Temporal(req)).facts[id];
    FactEventsDistinct(s, req, id, fact);
    NumberedUnique(FactEvents(s.factRevisions, req, fact), req.eventKinds, a, b);
  }

  // ----- the order of lifecycle events -----

  predicate EventBefore(a: TimelineEvent, b: TimelineEvent, descending: bool) {
    if a.timestamp != b.timestamp then (if descending then a.timestamp > b.timestamp else a.timestamp < b.timestamp)
    else Less(a.recordId, b.recordId)
  }

  function EventOrder(descending: bool): (TimelineEvent, TimelineEvent) -> bool {
    (a, b) => EventBefore(a, b, descending)
  }

  lemma EventOrderIsStrict(descending: bool)
    ensures Strict(EventOrder(descending))
  {
    forall x: TimelineEvent
      ensures !EventBefore(x, x, descending)
    {
      LessIrreflexive(x.recordId);
    }
    forall x: TimelineEvent, y, z | EventBefore(x, y, descending) && EventBefore(y, z, descending)
      ensures EventBefore(x, z, descending)
    {
      if Less(x.recordId, y.recordId) && Less(y.recordId, z.recordId) {
        LessTransitive(x.recordId, y.recordId, z.recordId);
      }
    }
  }

  function EventsOf(entries: seq<Entry>): (events: seq<TimelineEvent>)
    ensures |events| == |entries|
    ensures forall i :: 0 <= i < |events| ==> events[i] == entries[i].event
  {
    seq(|entries|, i requires 0 <= i < |entries| => entries[i].event)
  }

  lemma EventsSorted(s: State, req: TimelineRequest, entries: seq<Entry>)
    requires Inv(s) && LifecycleRequest(req) && RevisionsKeyed(s.factRevisions) && IsTimeline(s, req, entries)
    ensures Sorted(EventsOf(entries), EventOrder(req.descending))
    ensures forall e :: e in EventsOf(entries) <==> Happened(s, SpaceOf(req.spaceId), e) && ByInstant(req, e)
  {
    hide Inv, CutAt, SpaceOf, IsEntry, LifecycleRequest, Happened, ByInstant;
    forall i, j | 0 <= i < j < |entries|
      ensures EventBefore(entries[i].event, entries[j].event, req.descending)
    {
      var a, b := entries[i], entries[j];
      assert a in entries && b in entries;
      assert EntryBefore(a, b, req.descending);
      if a.event.timestamp == b.event.timestamp && a.event.recordId == b.event.recordId {
        EntryUnique(s, req, a, b);
        LessIrreflexive(a.event.eventId);
      }
    }
    forall e
      ensures e in EventsOf(entries) <==> Happened(s, SpaceOf(req.spaceId), e) && ByInstant(req, e)
    {
      EntryHappened(s, req, e);
      if e in EventsOf(entries) {
        var i :| 0 <= i < |entries| && EventsOf(entries)[i] == e;
        assert entries[i] in entries && entries[i] == Entry(e, entries[i].order);
      }
      if n: nat :| IsEntry(CutAt(s, Temporal(req)), s.factRevisions, req, Entry(e, n)) {
        assert Entry(e, n) in entries;
        var i :| 0 <= i < |entries| && entries[i] == Entry(e, n);
        assert EventsOf(entries)[i] == e;
      }
    }
  }

  function UpTo(events: seq<TimelineEvent>, at: int): seq<TimelineEvent> {
    if events == [] then []
    else if events[0].timestamp <= at then [events[0]] + UpTo(events[1..], at) else UpTo(events[1..], at)
  }

  lemma {:induction false} UpToIs(events: seq<TimelineEvent>, at: int, less: (TimelineEvent, TimelineEvent) -> bool)
    requires Sorted(events, less)
    ensures Sorted(UpTo(events, at), less)
    ensures forall e :: e in UpTo(events, at) <==> e in events && e.timestamp <= at
  {
    if events != [] {
      UpToIs(events[1..], at, less);
      var rest := UpTo(events[1..], at);
      assert events == [events[0]] + events[1..];
      forall j | 0 <= j < |rest|
        ensures less(events[0], rest[j])
      {
        assert rest[j] in events[1..];
      }
    }
  }

  lemma {:induction false} NoneUpTo(events: seq<TimelineEvent>, at: int)
    requires forall e :: e in events ==> e.timestamp > at
    ensures UpTo(events, at) == []
  {
    if events != [] {
      NoneUpTo(events[1..], at);
    }
  }

  lemma {:induction false} UpToIsPrefix(events: seq<TimelineEvent>, at: int)
    requires forall i, j :: 0 <= i < j < |events| ==> events[i].timestamp <= events[j].timestamp
    ensures UpTo(events, at) <= events
  {
    if events != [] {
      UpToIsPrefix(events[1..], at);
      if events[0].timestamp > at {
        NoneUpTo(events[1..], at);
      }
    }
  }

  lemma AscendingStamps(events: seq<TimelineEvent>)
    requires Sorted(events, EventOrder(false))
    ensures forall i, j :: 0 <= i < j < |events| ==> events[i].timestamp <= events[j].timestamp
  {
    forall i, j | 0 <= i < j < |events|
      ensures events[i].timestamp <= events[j].timestamp
    {
      assert EventOrder(false)(events[i], events[j]);
    }
  }

  /** The superseded and retracted events of a timeline as of T are those of the live
      timeline stamped at or before T, in the same order; read forwards, they are a
      prefix of it. */
  lemma AsOfTimelineIsAPrefix(s: State, req: TimelineRequest, at: int, live: seq<Entry>, past: seq<Entry>)
    requires Inv(s) && LifecycleRequest(req) && req.temporal.asOf.None? && RevisionsKeyed(s.factRevisions)
    requires IsTimeline(s, req, live)
    requires IsTimeline(s, req.(temporal := req.temporal.(asOf := Some(at))), past)
    ensures EventsOf(past) == UpTo(EventsOf(live), at)
    ensures !req.descending ==> EventsOf(past) <= EventsOf(live)
  {
    hide Inv, IsTimeline, SpaceOf, Happened, EventOrder, EventsOf, UpTo;
    var then_ := req.(temporal := req.temporal.(asOf := Some(at)));
    EventsSorted(s, req, live);
    EventsSorted(s, then_, past);
    UpToIs(EventsOf(live), at, EventOrder(req.descending));
    EventOrderIsStrict(req.descending);
    SortedUnique(EventsOf(past), UpTo(EventsOf(live), at), EventOrder(req.descending));
    if !req.descending {
      AscendingStamps(EventsOf(live));
      UpToIsPrefix(EventsOf(live), at);
    }
  }

  // ----- the same for a request that asks for every kind -----

  function OfKinds(entries: seq<Entry>, kinds: seq<EventKind>): seq<Entry> {
    if entries == [] then []
    else if entries[0].event.kind in kinds then [entries[0]] + OfKinds(entries[1..], kinds) else OfKinds(entries[1..], kinds)
  }

  lemma {:induction false} OfKindsIs(entries: seq<Entry>, kinds: seq<EventKind>, less: (Entry, Entry) -> bool)
    requires Sorted(entries, less)
    ensures Sorted(OfKinds(entries, kinds), less)
    ensures forall e :: e in OfKinds(entries, kinds) <==> e in entries && e.event.kind in kinds
  {
    if entries != [] {
      OfKindsIs(entries[1..], kinds, less);
      var rest := OfKinds(entries[1..], kinds);
      assert entries == [entries[0]] + entries[1..];
      forall j | 0 <= j < |rest|
        ensures less(entries[0], rest[j])
      {
        assert rest[j] in entries[1..];
      }
    }
  }

  lemma NumberedOfKinds(events: seq<TimelineEvent>, kinds: seq<EventKind>, entry: Entry)
    requires kinds != []
    ensures entry in Numbered(events, kinds) <==> entry in Numbered(events, []) && entry.event.kind in kinds
  {
  }

  lemma EntryOfKinds(cut: Cut, revs: map<string, FactRevision>, req: TimelineRequest, kinds: seq<EventKind>, entry: Entry)
    requires RevisionsKeyed(revs) && req.eventKinds == [] && kinds != []
    ensures IsEntry(cut, revs, req.(eventKinds := kinds), entry) <==> IsEntry(cut, revs, req, entry) && entry.event.kind in kinds
  {
    hide Numbered, InScope, AnchorsMatch, EpisodeInScope, SpaceOf, RevisionsKeyed, LifecycleOf, VisibleEvents;
    var some := req.(eventKinds := kinds);
    forall id
      ensures EpisodeEntry(cut, some, id, entry) <==> EpisodeEntry(cut, req, id, entry) && entry.event.kind in kinds
      ensures FactEntry(cut, revs, some, id, entry) <==> FactEntry(cut, revs, req, id, entry) && entry.event.kind in kinds
    {
      if EpisodeShown(cut, req, id) {
        NumberedOfKinds(EpisodeEvents(req, cut.episodes[id].episode), kinds, entry);
      }
      if FactShown(cut, req, id) {
        NumberedOfKinds(FactEvents(revs, req, cut.facts[id]), kinds, entry);
      }
    }
  }

  /** Keeping some kinds of a full timeline is the timeline of those kinds. */
  lemma KindsOfTimeline(s: State, req: TimelineRequest, kinds: seq<EventKind>, entries: seq<Entry>)
    requires RevisionsKeyed(s.factRevisions) && req.eventKinds == [] && kinds != [] && IsTimeline(s, req, entries)
    ensures IsTimeline(s, req.(eventKinds := kinds), OfKinds(entries, kinds))
  {
    hide IsEntry, CutAt, OfKinds, RevisionsKeyed;
    OfKindsIs(entries, kinds, Before(req.descending));
    forall e
      ensures IsEntry(CutAt(s, Temporal(req)), s.factRevisions, req.(eventKinds := kinds), e) <==>
              IsEntry(CutAt(s, Temporal(req)), s.factRevisions, req, e) && e.event.kind in kinds
    {
      EntryOfKinds(CutAt(s, Temporal(req)), s.factRevisions, req, kinds, e);
    }
  }

  /** Of two timelines that ask for every kind, live and as of T, the superseded and
      retracted events agree up to T. */
  lemma FullTimelinePrefix(s: State, req: TimelineRequest, kinds: seq<EventKind>, at: int, live: seq<Entry>, past: seq<Entry>)
    requires Inv(s) && RevisionsKeyed(s.factRevisions) && LifecycleKinds(kinds) && req.temporal.asOf.None?
    requires req.anchorIds == [] && req.eventKinds == [] && req.scope == ScopeFilter([], [], [], [], []) && Neutral(Temporal(req))
    requires IsTimeline(s, req, live)
    requires IsTimeline(s, req.(temporal := req.temporal.(asOf := Some(at))), past)
    ensures EventsOf(OfKinds(past, kinds)) == UpTo(EventsOf(OfKinds(live, kinds)), at)
    ensures !req.descending ==> EventsOf(OfKinds(past, kinds)) <= EventsOf(OfKinds(live, kinds))
  {
    hide Inv, IsTimeline, OfKinds, EventsOf, UpTo;
    KindsOfTimeline(s, req, kinds, live);
    KindsOfTimeline(s, req.(temporal := req.temporal.(asOf := Some(at))), kinds, past);
    AsOfTimelineIsAPrefix(s, req.(eventKinds := kinds), at, OfKinds(live, kinds), OfKinds(past, kinds));
  }

  /** A fact's supersession comes strictly before its retraction. */
  lemma SupersessionBeforeRetraction(s: State, id: string, a: TimelineEvent, b: TimelineEvent)
    requires Inv(s) && id in s.facts && a in EventsOfFact(s, id) && b in EventsOfFact(s, id)
    requires a.kind == FactSuperseded && b.kind == FactRetracted
    ensures a.timestamp < b.timestamp
  {
    hide Inv, EventsOfFact, SupersededAt;
    LifecycleExact(s, id);
    TransitionStamps(s, id);
  }
}
