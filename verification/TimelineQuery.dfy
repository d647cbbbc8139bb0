/** The timeline query as the engine runs it: one pass over the log, one over the
    episodes, one over the facts, then a sort and a page. */
module TimelineQuery {
  import opened Wrappers
  import opened Text
  import opened Sorting
  import opened Records
  import opened EngineSpec
  import opened Invariants
  import opened Cuts
  import opened LookupSpec
  import opened Redirects
  import opened Timeline
  import TemporalIndex
  import Lookup

  type Index = TemporalIndex.TemporalIndex

  type ByFact = map<string, set<FactRevision>>

  function GroupOf(byFact: ByFact, id: string): set<FactRevision> {
    if id in byFact then byFact[id] else {}
  }

  ghost predicate Grouped(byFact: ByFact, revs: map<string, FactRevision>) {
    forall id :: GroupOf(byFact, id) == RevisionsOf(revs, id)
  }

  /** factRevisionsByFact: the log, grouped in a single pass. */
  method RevisionsByFact(revs: map<string, FactRevision>) returns (byFact: ByFact)
    ensures Grouped(byFact, revs)
  {
    hide Grouped, RevisionsOf, GroupOf;
    byFact := map[];
    var todo := revs.Keys;
    ghost var seen: map<string, FactRevision> := map[];
    NothingGrouped();
    while todo != {}
      invariant todo <= revs.Keys && Grouped(byFact, seen)
      invariant seen == map rid | rid in revs && rid !in todo :: revs[rid]
      decreases |todo|
    {
      var rid :| rid in todo;
      var r := revs[rid];
      GroupOne(byFact, seen, rid, r);
      todo := todo - {rid};
      seen := seen[rid := r];
      byFact := byFact[r.factId := GroupOf(byFact, r.factId) + {r}];
    }
    assert seen == revs;
  }

  lemma NothingGrouped()
    ensures Grouped(map[], map[])
  {
  }

  lemma GroupOne(byFact: ByFact, seen: map<string, FactRevision>, rid: string, r: FactRevision)
    requires Grouped(byFact, seen) && rid !in seen
    ensures Grouped(byFact[r.factId := GroupOf(byFact, r.factId) + {r}], seen[rid := r])
  {
    hide RevisionsOf;
    var after := byFact[r.factId := GroupOf(byFact, r.factId) + {r}];
    forall id
      ensures GroupOf(after, id) == RevisionsOf(seen[rid := r], id)
    {
      OneMore(seen, rid, r, id);
      assert GroupOf(byFact, id) == RevisionsOf(seen, id);
    }
  }

  lemma OneMore(seen: map<string, FactRevision>, rid: string, r: FactRevision, id: string)
    requires rid !in seen
    ensures RevisionsOf(seen[rid := r], id) == RevisionsOf(seen, id) + (if id == r.factId then {r} else {})
  {
    var more := seen[rid := r];
    assert rid in more && more[rid] == r;
    forall x | x in RevisionsOf(seen, id)
      ensures x in RevisionsOf(more, id)
    {
      var k :| k in seen && seen[k].factId == id && seen[k] == x;
      assert more[k] == x;
    }
  }

  /** factLifecycleEvents */
  method LifecycleEvents(ghost revs: map<string, FactRevision>, fact: Fact, revisions: set<FactRevision>, filter: TemporalFilter)
    returns (events: seq<TimelineEvent>)
    requires RevisionsKeyed(revs) && revisions == RevisionsOf(revs, fact.id)
    ensures events == LifecycleOf(revs, fact, filter)
  {
    hide FactVisibleAt, LifecycleEvent, RevisionsOf, RevisionBefore;
    RevisionBeforeIsStrict();
    RevisionsTotal(revs, fact.id);
    var sorted := SortSet(revisions, RevisionBefore);
    SortedUnique(sorted, RevisionHistory(revs, fact.id), RevisionBefore);
    if sorted == [] {
      sorted := [NewFactRevision("", fact, "", fact.updatedAt)];
    }
    events := [];
    for i := 0 to |sorted|
      invariant events == Emitted(fact.id, sorted[..i], filter)
    {
      assert sorted[..i + 1][..i] == sorted[..i];
      if FactVisibleAt(ToFact(sorted[i]), filter) {
        var event := LifecycleEvent(fact.id, sorted[i]);
        if event.Some? && !HasKind(events, event.value.kind) {
          events := events + [event.value];
        }
      }
    }
    assert sorted[..|sorted|] == sorted;
  }

  // ----- entries -----

  ghost predicate CutKeyed(cut: Cut) {
    (forall id :: id in cut.episodes ==> cut.episodes[id].episode.id == id) &&
    (forall id :: id in cut.facts ==> cut.facts[id].id == id)
  }

  lemma CutIsKeyed(s: State, filter: TemporalFilter)
    requires KeysMatch(s)
    ensures CutKeyed(CutAt(s, filter))
  {
    hide EntitiesAt, SourcesAt, FactVersionAt, KeysMatch;
    assert forall id :: id in s.episodes ==> s.episodes[id].id == id by {
      EpisodeKeys(s);
    }
    forall id | id in FactsAt(s, filter)
      ensures FactsAt(s, filter)[id].id == id
    {
      Lookup.VersionInCut(s, filter, id);
    }
  }

  lemma EpisodeKeys(s: State)
    requires KeysMatch(s)
    ensures forall id :: id in s.episodes ==> s.episodes[id].id == id
  {
  }

  lemma NumberedOrders(events: seq<TimelineEvent>, kinds: seq<EventKind>, a: Entry, b: Entry)
    requires a in Numbered(events, kinds) && b in Numbered(events, kinds) && a.order == b.order
    ensures a == b
  {
  }

  /** The texts of event IDs tell an episode from a fact with the same ID. */
  lemma {:induction false} EventTexts(events: seq<TimelineEvent>, filter: TemporalFilter, kinds: seq<EventKind>, entry: Entry)
    requires entry in Numbered(VisibleEvents(events, filter), kinds)
    ensures entry.event in events
  {
    VisibleIs(events, filter);
  }

  lemma {:induction false} EmittedTexts(factId: string, revisions: seq<FactRevision>, filter: TemporalFilter)
    ensures forall e :: e in Emitted(factId, revisions, filter) ==> e.recordId == factId && |e.eventId| > |"evt:" + factId|
  {
    hide FactVisibleAt;
    if revisions != [] {
      EmittedTexts(factId, revisions[..|revisions| - 1], filter);
    }
  }

  lemma EpisodeEntryTexts(cut: Cut, req: TimelineRequest, id: string, entry: Entry)
    requires CutKeyed(cut) && EpisodeEntry(cut, req, id, entry)
    ensures entry.event.recordId == id && entry.event.eventId == "evt:" + id
  {
    var episode := cut.episodes[id].episode;
    EventTexts([TimelineEvent("evt:" + episode.id, EpisodeSeen, episode.id, ChooseTime(episode.observedAt, episode.ingestedAt),
                              req.summarize(episode.content))], Temporal(req), req.eventKinds, entry);
  }

  lemma FactEntryTexts(cut: Cut, revs: map<string, FactRevision>, req: TimelineRequest, id: string, entry: Entry)
    requires CutKeyed(cut) && RevisionsKeyed(revs) && FactEntry(cut, revs, req, id, entry)
    ensures entry.event.recordId == id && |entry.event.eventId| > |"evt:" + id|
  {
    hide Emitted, RevisionHistory, Numbered, VisibleEvents, InScope, AnchorsMatch, Canonical;
    var fact := cut.facts[id];
    var history := RevisionHistory(revs, fact.id);
    EmittedTexts(fact.id, if history == [] then [NewFactRevision("", fact, "", fact.updatedAt)] else history, Temporal(req));
    EventTexts([TimelineEvent("evt:" + fact.id + ":created", FactCreated, fact.id,
                              ChooseTime(fact.observedAt, fact.createdAt), fact.predicate_)] +
               LifecycleOf(revs, fact, Temporal(req)), Temporal(req), req.eventKinds, entry);
  }

  /** Any two entries of a timeline are ordered one way or the other, so the sort has a
      single result. */
  lemma EntriesTotal(cut: Cut, revs: map<string, FactRevision>, req: TimelineRequest, a: Entry, b: Entry)
    requires CutKeyed(cut) && RevisionsKeyed(revs) && IsEntry(cut, revs, req, a) && IsEntry(cut, revs, req, b) && a != b
    ensures EntryBefore(a, b, req.descending) || EntryBefore(b, a, req.descending)
  {
    hide EpisodeEntry, FactEntry, CutKeyed, Less;
    LessTotal(a.event.recordId, b.event.recordId);
    LessTotal(a.event.eventId, b.event.eventId);
    if a.event.recordId == b.event.recordId && a.order == b.order {
      if x :| EpisodeEntry(cut, req, x, a) {
        EpisodeEntryTexts(cut, req, x, a);
        if y :| EpisodeEntry(cut, req, y, b) {
          EpisodeEntryTexts(cut, req, y, b);
          SameEpisodeEntry(cut, req, x, a, b);
        } else {
          var y :| FactEntry(cut, revs, req, y, b);
          FactEntryTexts(cut, revs, req, y, b);
        }
      } else {
        var x :| FactEntry(cut, revs, req, x, a);
        FactEntryTexts(cut, revs, req, x, a);
        if y :| EpisodeEntry(cut, req, y, b) {
          EpisodeEntryTexts(cut, req, y, b);
        } else {
          var y :| FactEntry(cut, revs, req, y, b);
          FactEntryTexts(cut, revs, req, y, b);
          SameFactEntry(cut, revs, req, x, a, b);
        }
      }
    }
  }

  lemma SameEpisodeEntry(cut: Cut, req: TimelineRequest, id: string, a: Entry, b: Entry)
    requires EpisodeEntry(cut, req, id, a) && EpisodeEntry(cut, req, id, b) && a.order == b.order
    ensures a == b
  {
    NumberedOrders(EpisodeEvents(req, cut.episodes[id].episode), req.eventKinds, a, b);
  }

  lemma SameFactEntry(cut: Cut, revs: map<string, FactRevision>, req: TimelineRequest, id: string, a: Entry, b: Entry)
    requires RevisionsKeyed(revs) && FactEntry(cut, revs, req, id, a) && FactEntry(cut, revs, req, id, b) && a.order == b.order
    ensures a == b
  {
    NumberedOrders(FactEvents(revs, req, cut.facts[id]), req.eventKinds, a, b);
  }

  // ----- the query -----

  method CollectEpisodes(s: State, req: TimelineRequest, anchors: set<string>) returns (entries: set<Entry>)
    requires anchors == AnchorSet(EntitiesAt(s, Temporal(req)), req.anchorIds)
    ensures forall e :: e in entries <==> exists id :: EpisodeEntry(CutAt(s, Temporal(req)), req, id, e)
  {
    hide AnchorSet, EntitiesAt, FactsAt, SourcesAt, EpisodeInScope, AnchorsMatch, EpisodeEvents, Numbered, SpaceOf, EpisodeVisibleAt;
    ghost var cut := CutAt(s, Temporal(req));
    entries := {};
    var todo := s.episodes.Keys;
    while todo != {}
      invariant todo <= s.episodes.Keys
      invariant forall e :: e in entries <==> exists id :: id !in todo && EpisodeEntry(cut, req, id, e)
      decreases |todo|
    {
      var id :| id in todo;
      var episode := s.episodes[id];
      var source := if episode.sourceId in s.sources then Some(s.sources[episode.sourceId]) else None;
      ghost var before := entries;
      if episode.spaceId == SpaceOf(req.spaceId) && EpisodeVisibleAt(episode, Temporal(req)) &&
         EpisodeInScope(SourcedEpisode(episode, source), req.scope) && AnchorsMatch(anchors, {episode.id, episode.sourceId}) {
        assert EpisodeShown(cut, req, id);
        entries := entries + Numbered(EpisodeEvents(req, episode), req.eventKinds);
      }
      forall e
        ensures e in entries <==> e in before || EpisodeEntry(cut, req, id, e)
      {
      }
      todo := todo - {id};
    }
  }

  method ResolveAnchors(s: State, ids: seq<string>, filter: TemporalFilter, index: Index) returns (anchors: set<string>)
    requires Lookup.Serves(index, s)
    modifies index
    ensures Lookup.Serves(index, s) && anchors == AnchorSet(EntitiesAt(s, filter), ids)
  {
    hide EntitiesAt, Canonical;
    var resolved := Lookup.CanonicalIds(s, ids, filter, index);
    anchors := set a | a in resolved;
    ghost var entities := EntitiesAt(s, filter);
    forall a
      ensures a in resolved <==> a in AnchorSet(entities, ids)
    {
      if a in resolved {
        var i :| 0 <= i < |resolved| && resolved[i] == a;
        assert ids[i] in ids;
      }
      if a in AnchorSet(entities, ids) {
        var id :| id in ids && Canonical(entities, id) == a;
        var i :| 0 <= i < |ids| && ids[i] == id;
        assert resolved[i] == a;
      }
    }
  }

  method ShowsFact(s: State, req: TimelineRequest, anchors: set<string>, record: Fact, index: Index) returns (shown: bool)
    requires Lookup.Serves(index, s) && anchors == AnchorSet(EntitiesAt(s, Temporal(req)), req.anchorIds)
    modifies index
    ensures Lookup.Serves(index, s)
    ensures shown <==> Passes(CutAt(s, Temporal(req)), req, record)
  {
    hide AnchorSet, EntitiesAt, InScope, Canonical, SpaceOf, EpisodesAt, SourcesAt, FactsAt;
    if record.spaceId != SpaceOf(req.spaceId) {
      return false;
    }
    var scoped := Lookup.MatchesScope(s, record, req.scope, Temporal(req), index);
    if !scoped {
      return false;
    }
    var subject := Lookup.CanonicalAt(s, record.subjectId, Temporal(req), index);
    var object_ := Lookup.CanonicalAt(s, record.objectId, Temporal(req), index);
    return AnchorsMatch(anchors, {subject, object_, record.id} + (set e | e in record.support));
  }

  /** The visible, numbered events of one shown fact. */
  method EventsOfRecord(ghost revs: map<string, FactRevision>, req: TimelineRequest, record: Fact, revisions: set<FactRevision>)
    returns (events: seq<TimelineEvent>)
    requires RevisionsKeyed(revs) && revisions == RevisionsOf(revs, record.id)
    ensures events == FactEvents(revs, req, record)
  {
    hide RevisionsOf, LifecycleOf, EventVisible;
    var created := TimelineEvent("evt:" + record.id + ":created", FactCreated, record.id,
                                 ChooseTime(record.observedAt, record.createdAt), record.predicate_);
    var life := LifecycleEvents(revs, record, revisions, Temporal(req));
    var all := [created] + life;
    events := [];
    for i := 0 to |all|
      invariant events == VisibleEvents(all[..i], Temporal(req))
    {
      assert all[..i + 1][..i] == all[..i];
      if EventVisible(all[i], Temporal(req)) {
        events := events + [all[i]];
      }
    }
    assert all[..|all|] == all;
  }

  lemma FactEntryIs(s: State, req: TimelineRequest, id: string, record: Option<Fact>, shown: bool, entry: Entry)
    requires KeysMatch(s) && RevisionsKeyed(s.factRevisions) && id in s.facts
    requires record == FactVersionAt(s.factRevisions, s.facts[id], Temporal(req))
    requires record.Some? ==> (shown <==> Passes(CutAt(s, Temporal(req)), req, record.value))
    ensures FactEntry(CutAt(s, Temporal(req)), s.factRevisions, req, id, entry) <==>
            record.Some? && shown && entry in Numbered(FactEvents(s.factRevisions, req, record.value), req.eventKinds)
    ensures record.Some? ==> record.value.id == id
  {
    hide Passes, EntitiesAt, EpisodesAt, SourcesAt, FactVersionAt, FactEvents, Numbered, KeysMatch;
    Lookup.VersionInCut(s, Temporal(req), id);
  }

  method CollectFacts(s: State, req: TimelineRequest, anchors: set<string>, index: Index) returns (entries: set<Entry>)
    requires KeysMatch(s) && RevisionsKeyed(s.factRevisions)
    requires Lookup.Serves(index, s) && anchors == AnchorSet(EntitiesAt(s, Temporal(req)), req.anchorIds)
    modifies index
    ensures Lookup.Serves(index, s)
    ensures forall e :: e in entries <==> exists id :: FactEntry(CutAt(s, Temporal(req)), s.factRevisions, req, id, e)
  {
    hide KeysMatch, AnchorSet, CutAt, FactEntry, FactEvents, Numbered, FactVersionAt, RevisionsOf, RevisionsKeyed, Passes, Grouped,
         EntitiesAt;
    ghost var cut, revs := CutAt(s, Temporal(req)), s.factRevisions;
    var byFact := RevisionsByFact(s.factRevisions);
    entries := {};
    var todo := s.facts.Keys;
    while todo != {}
      invariant todo <= s.facts.Keys && Lookup.Serves(index, s)
      invariant forall e :: e in entries <==> exists id :: id in s.facts.Keys - todo && FactEntry(cut, revs, req, id, e)
      decreases |todo|
    {
      var id :| id in todo;
      ghost var before := entries;
      var record := Lookup.FactVersion(s, s.facts[id], Temporal(req), index);
      var shown := false;
      if record.Some? {
        shown := ShowsFact(s, req, anchors, record.value, index);
        if shown {
          GroupIs(byFact, revs, record.value.id);
          var events := EventsOfRecord(revs, req, record.value, GroupOf(byFact, record.value.id));
          entries := entries + Numbered(events, req.eventKinds);
        }
      }
      forall e
        ensures e in entries <==> e in before || FactEntry(cut, revs, req, id, e)
      {
        FactEntryIs(s, req, id, record, shown, e);
      }
      todo := todo - {id};
    }
    forall e, id | FactEntry(cut, revs, req, id, e)
      ensures id in s.facts
    {
      EntryOfStored(s, req, id, e);
    }
  }

  lemma GroupIs(byFact: ByFact, revs: map<string, FactRevision>, id: string)
    requires Grouped(byFact, revs)
    ensures GroupOf(byFact, id) == RevisionsOf(revs, id)
  {
  }

  lemma EntryOfStored(s: State, req: TimelineRequest, id: string, e: Entry)
    requires RevisionsKeyed(s.factRevisions) && FactEntry(CutAt(s, Temporal(req)), s.factRevisions, req, id, e)
    ensures id in s.facts
  {
    hide EntitiesAt, EpisodesAt, SourcesAt, FactVersionAt, FactEvents, Numbered, Passes;
  }

  ghost predicate IsTimelinePage(s: State, req: TimelineRequest, cursor: string, limit: int, page: seq<TimelineEvent>, next: string)
    requires RevisionsKeyed(s.factRevisions)
  {
    DecodeCursor(cursor).Ok? &&
    exists entries :: IsTimeline(s, req, entries) && (page, next) == Paginate(EventsOf(entries), DecodeCursor(cursor).value, limit)
  }

  /** Timeline */
  method TimelinePage(s: State, poisoned: bool, req: TimelineRequest, cursor: string, limit: int)
    returns (r: Result<(seq<TimelineEvent>, string)>)
    requires Keyed(s) && RevisionsKeyed(s.factRevisions)
    ensures r.Ok? ==> IsTimelinePage(s, req, cursor, limit, r.value.0, r.value.1)
    ensures r.Err? <==> poisoned || DecodeCursor(cursor).Err?
  {
    hide CutAt, EpisodeEntry, FactEntry, DecodeCursor, Paginate, EventsOf, KeysMatch, RevisionsKeyed, CutKeyed, AnchorSet, EntitiesAt,
         EntryBefore;
    var offset := DecodeCursor(cursor);
    if offset.Err? {
      return Err(offset.error);
    }
    if poisoned {
      return Err(StorageFailed);
    }
    var index := new TemporalIndex.TemporalIndex(s);
    var anchors := ResolveAnchors(s, req.anchorIds, Temporal(req), index);
    var episodes := CollectEpisodes(s, req, anchors);
    var facts := CollectFacts(s, req, anchors, index);
    ghost var cut := CutAt(s, Temporal(req));
    CutIsKeyed(s, Temporal(req));
    forall x, y | x in episodes + facts && y in episodes + facts && x != y
      ensures EntryBefore(x, y, req.descending) || EntryBefore(y, x, req.descending)
    {
      EntriesTotal(cut, s.factRevisions, req, x, y);
    }
    BeforeIsStrict(req.descending);
    var entries := SortSet(episodes + facts, Before(req.descending));
    assert IsTimeline(s, req, entries);
    return Ok(Paginate(EventsOf(entries), offset.value, limit));
  }
}
