/** Reads and runs on an engine over either store: an engine whose last save has an
    unknown outcome serves nothing, and on every other one a lookup through the edges that
    the saves maintained returns what a scan returns. */
module Reads {
  import opened Wrappers
  import opened Records
  import opened EngineSpec
  import opened Invariants
  import opened AnyState
  import opened Storage
  import opened Cuts
  import opened LookupSpec
  import opened Backends
  import E = Engine
  import Lattice
  import Rhiza
  import Lookup
  import Timeline
  import TimelineQuery
  import NeighborhoodQuery

  /** The store an engine asks for candidates: only Lattice can answer. */
  function CandidateStore(store: Backend): Lattice.LatticeStore? {
    if store.OnLattice? then store.lattice else null
  }

  lemma StateIsKeyed(eng: E.Engine)
    requires eng.Valid()
    ensures Keyed(eng.State())
  {
    hide WellKeyed, Seed;
    KeyedIsWellKeyed(eng.State());
  }

  /** The store holds the facts the engine serves, at every moment of every run. */
  lemma StoreServes(eng: E.Engine)
    requires eng.Valid()
    ensures Lookup.StoreAgrees(CandidateStore(eng.store), eng.State())
  {
    hide WellKeyed, Seed, AllNamed, Lattice.EndpointsExact, Lattice.Stored, Lattice.LatticeDb.FlagIsTrue, Loads;
    E.SeedKeepsFacts(eng.store.LastState(), eng.seededAt);
  }

  // ----- reads -----

  /** LookupFacts: the page that cut, request and cursor fix. */
  method LookupFacts(eng: E.Engine, req: FactLookupRequest, cursor: string, limit: int) returns (r: Result<(seq<Fact>, string)>)
    requires eng.Valid()
    ensures eng.poisoned ==> r.Err?
    ensures r.Ok? ==> IsPage(CutAt(eng.State(), req.temporal), req, cursor, limit, r.value.0, r.value.1)
  {
    hide Keyed, CutAt, IsPage, Lookup.StoreAgrees, E.Engine.Valid;
    StateIsKeyed(eng);
    StoreServes(eng);
    r := Lookup.LookupFacts(eng.State(), eng.poisoned, CandidateStore(eng.store), req, cursor, limit);
  }

  /** Timeline */
  method QueryTimeline(eng: E.Engine, req: Timeline.TimelineRequest, cursor: string, limit: int)
    returns (r: Result<(seq<Timeline.TimelineEvent>, string)>)
    requires eng.Valid()
    ensures eng.poisoned ==> r.Err?
    ensures r.Ok? ==> Timeline.RevisionsKeyed(eng.factRevisions) &&
                      TimelineQuery.IsTimelinePage(eng.State(), req, cursor, limit, r.value.0, r.value.1)
  {
    hide TimelineQuery.IsTimelinePage, E.Engine.Valid;
    StateIsKeyed(eng);
    r := TimelineQuery.TimelinePage(eng.State(), eng.poisoned, req, cursor, limit);
  }

  /** Neighborhood */
  method QueryNeighborhood(eng: E.Engine, req: NeighborhoodQuery.NeighborhoodRequest)
    returns (r: Result<NeighborhoodQuery.NeighborhoodAnswer>)
    requires eng.Valid()
    ensures eng.poisoned ==> r.Err?
    ensures r.Ok? ==> NeighborhoodQuery.IsNeighborhoodAnswer(eng.State(), req, r.value)
  {
    hide NeighborhoodQuery.IsNeighborhoodAnswer, E.Engine.Valid;
    StateIsKeyed(eng);
    r := NeighborhoodQuery.QueryNeighborhood(eng.State(), eng.poisoned, req);
  }

  // ----- runs -----

  /** Any sequence of mutations, each saved, or refused and rolled back. The engine ends
      in the state of those that took effect; it agrees with the disk unless it is
      poisoned; and the store stays ready to serve lookups if it was. */
  method RunAll(eng: E.Engine, d: Derivation, events: seq<Event>) returns (ghost done: seq<Event>)
    requires eng.Valid()
    modifies eng, eng.store.Footprint()
    ensures eng.Valid() && eng.State() == Run(old(eng.State()), d, done)
    ensures forall e :: e in done ==> e in events
    ensures !eng.poisoned ==> eng.DiskAgrees()
    ensures eng.store.OnLattice? ==> eng.store.lattice.ready == old(eng.store.lattice.ready)
    ensures Carries(old(eng.State()), eng.State())
    ensures old(Inv(eng.State())) && ClockOk(events) ==> Inv(eng.State())
  {
    hide Inv, Mutation, Carries, E.Engine.Valid, E.Engine.DiskAgrees, E.Explained, Lattice.Dangles;
    done := [];
    CarriesSelf(eng.State());
    if !eng.poisoned {
      eng.ValidAgrees();
    }
    for i := 0 to |events|
      invariant eng.Valid() && eng.State() == Run(old(eng.State()), d, done)
      invariant forall e :: e in done ==> e in events
      invariant !eng.poisoned ==> eng.DiskAgrees()
      invariant eng.store.OnLattice? ==> eng.store.lattice.ready == old(eng.store.lattice.ready)
      invariant Carries(old(eng.State()), eng.State())
      invariant old(Inv(eng.State())) && ClockOk(events) ==> Inv(eng.State())
    {
      ghost var before := eng.State();
      var r := eng.Mutate(d, events[i].op, events[i].now);
      CarriesOn(old(eng.State()), before, eng.State());
      if r.Ok? {
        assert (done + [events[i]])[..|done|] == done;
        done := done + [events[i]];
      }
    }
  }

  /** Open a database of either kind, run any mutations, and look facts up twice: through
      the engine's store, and by scanning. Whenever both answer, they answer the same. */
  method RunThenLookup(store: Backend, now: int, d: Derivation, events: seq<Event>, req: FactLookupRequest, cursor: string, limit: int)
    returns (fast: Result<(seq<Fact>, string)>, slow: Result<(seq<Fact>, string)>)
    requires store.Valid() && !store.Loaded() && !store.Poisoned()
    modifies store.Footprint()
    ensures fast.Ok? && slow.Ok? ==> fast == slow
  {
    hide Loads, Inv, CutAt, IsPage, Carries, E.Engine.Valid, E.Engine.DiskAgrees, Keyed, Lattice.LatticeStore.Valid;
    var opened_ := E.Open(store, now);
    if opened_.Err? {
      return Err(opened_.error), Err(opened_.error);
    }
    var eng := opened_.value;
    ghost var done := RunAll(eng, d, events);
    fast := LookupFacts(eng, req, cursor, limit);
    StateIsKeyed(eng);
    slow := Lookup.LookupFacts(eng.State(), eng.poisoned, null, req, cursor, limit);
    if fast.Ok? && slow.Ok? {
      PageUnique(CutAt(eng.State(), req.temporal), req, cursor, limit, fast.value.0, fast.value.1, slow.value.0, slow.value.1);
    }
  }

  // ----- crashes -----

  /** The process ends, and another one opens the database. A request left in flight
      commits then or never. */
  method Reopen(svc: Rhiza.Service, now: int, ghost prev: State, ghost next: State) returns (r: Result<E.Engine>)
    requires svc.Consistent() && Rhiza.InDoubt(svc, prev, next)
    modifies svc
    ensures r.Ok? ==> r.value.State() == Seed(prev, now) || r.value.State() == Seed(next, now)
  {
    hide Loads, Seed, WellKeyed, E.Engine.Valid, E.Engine.DiskAgrees;
    svc.Shutdown();
    var store := new Rhiza.RhizaStore(svc, false);
    r := E.Open(OnRhiza(store), now);
    if r.Ok? {
      FoundEither(svc, store, prev, next);
    }
  }

  lemma FoundEither(svc: Rhiza.Service, store: Rhiza.RhizaStore, prev: State, next: State)
    requires store.svc == svc && store.Valid() && store.loaded && !store.poisoned
    requires Loads(svc.rows, prev) || Loads(svc.rows, next)
    ensures store.lastState == prev || store.lastState == next
  {
    hide Loads;
    if Loads(svc.rows, prev) {
      LoadsUnique(svc.rows, prev, store.lastState);
    } else {
      LoadsUnique(svc.rows, next, store.lastState);
    }
  }

  /** A mutation over Rhiza, a crash at any moment after it, and a restart. The restart
      finds the state after the mutation if it was acknowledged, the state before it if it
      was refused, and one of the two if its outcome stayed unknown. */
  method MutateThenReopen(eng: E.Engine, d: Derivation, op: Op, now: int, later: int)
    returns (r: Result<()>, again: Result<E.Engine>)
    requires eng.Valid() && !eng.poisoned && eng.store.OnRhiza?
    modifies eng, eng.store.Footprint()
    ensures var before, spec := old(eng.store.LastState()), Mutation(old(eng.State()), d, op, now);
            again.Ok? ==>
              var found := again.value.State();
              if r.Ok? then spec == Ok(found)
              else found == Seed(before, later) || (eng.poisoned && spec.Ok? && found == Seed(spec.value, later))
  {
    hide Mutation, Carries, Inv, Loads, WellKeyed, Seed, Lattice.Dangles, E.Explained, E.Engine.DiskAgrees;
    ghost var before := eng.store.LastState();
    ghost var spec := Mutation(eng.State(), d, op, now);
    r := eng.Mutate(d, op, now);
    var svc := eng.store.rhiza.svc;
    ghost var next := if eng.poisoned then spec.value else if r.Ok? then eng.store.LastState() else before;
    E.SeededOnce(eng.store.LastState(), eng.seededAt, later);
    again := Reopen(svc, later, if r.Ok? then next else before, next);
  }
}
