/** The two stores behind an engine (pkg/yeoul/store.go): the service of Rhiza, whose
    answer may stay unknown, and the graph database of Lattice, whose edges also serve
    lookups. */
module Backends {
  import opened Wrappers
  import opened Records
  import opened EngineSpec
  import opened Storage
  import opened AnyState
  import Rhiza
  import Lattice

  datatype Outcome = Saved | Failed | TooLarge | Unknown

  datatype Backend = OnRhiza(rhiza: Rhiza.RhizaStore) | OnLattice(lattice: Lattice.LatticeStore) {
    /** Everything a save may change. */
    function Footprint(): set<object> {
      match this
      case OnRhiza(r) => {r, r.svc}
      case OnLattice(l) => {l, l.db}
    }

    ghost predicate Valid()
      reads Footprint()
    {
      match this
      case OnRhiza(r) => r.Valid()
      case OnLattice(l) => l.Valid() && l.Sound()
    }

    predicate Loaded()
      reads Footprint()
    {
      match this
      case OnRhiza(r) => r.loaded
      case OnLattice(l) => l.loaded
    }

    /** An unknown outcome poisons; a graph transaction always says what it did. */
    predicate Poisoned()
      reads Footprint()
    {
      match this
      case OnRhiza(r) => r.poisoned
      case OnLattice(_) => false
    }

    function LastState(): State
      reads Footprint()
    {
      match this
      case OnRhiza(r) => r.lastState
      case OnLattice(l) => l.lastState
    }

    function Rows(): Rows
      reads Footprint()
    {
      match this
      case OnRhiza(r) => r.svc.rows
      case OnLattice(l) => l.db.rows
    }

    /** A load succeeds and gives exactly this state. */
    ghost predicate Holds(s: State)
      reads Footprint()
    {
      match this
      case OnRhiza(r) => Loads(r.svc.rows, s)
      case OnLattice(l) => l.Holds(s)
    }

    /** A save whose outcome is unknown. */
    ghost predicate InDoubt(prev: State, next: State)
      reads Footprint()
    {
      OnRhiza? && Rhiza.InDoubt(rhiza.svc, prev, next)
    }

    predicate ReadOnly() {
      match this
      case OnRhiza(r) => r.readOnly
      case OnLattice(l) => l.readOnly
    }

    /** The store's own record of what it saved last. */
    lemma LastIsOnDisk()
      requires Valid() && Loaded() && !Poisoned()
      ensures Holds(LastState())
    {
    }

    lemma HoldsOne(s: State, t: State)
      requires Holds(s) && Holds(t)
      ensures s == t && WellKeyed(s)
    {
      hide Loads, WellKeyed, AllNamed, Lattice.Stored;
      match this
      case OnRhiza(r) =>
        LoadsUnique(r.svc.rows, s, t);
        LoadedIsWellKeyed(r.svc.rows, s);
      case OnLattice(l) =>
        LoadsUnique(Lattice.Stored(l.db.rows), s, t);
        LoadedIsWellKeyed(Lattice.Stored(l.db.rows), s);
    }

    /** Records without an ID: Lattice refuses to load them. */
    lemma LastIsNamed()
      requires Valid() && Loaded()
      ensures OnLattice? ==> AllNamed(LastState())
    {
    }

    method Load() returns (r: Result<State>)
      requires Valid() && !Loaded()
      modifies Footprint()
      ensures Valid() && Poisoned() == old(Poisoned()) && Rows() == old(Rows())
      ensures r.Ok? ==> Loaded() && LastState() == r.value && Holds(r.value)
      ensures r.Err? ==> !Loaded()
    {
      hide Loads, AllNamed, Lattice.Stored, Lattice.LatticeDb.FlagIsTrue, Lattice.EndpointsExact;
      match this
      case OnRhiza(s) => r := s.Load();
      case OnLattice(s) => r := s.Load();
    }

    /** Whatever the environment answers: saved, not saved, or unknown and poisoned. On
        Lattice a state that calls for an edge to a missing record is never saved. */
    method Save(state: State) returns (outcome: Outcome)
      requires Valid() && Loaded() && WellKeyed(state)
      requires OnLattice? ==> AllNamed(state) && Lattice.KeepsEndpoints(LastState(), state)
      modifies Footprint()
      ensures Valid() && Loaded()
      ensures outcome == Unknown <==> Poisoned()
      ensures old(Poisoned()) ==> Poisoned() && LastState() == old(LastState()) && Rows() == old(Rows())
      ensures outcome == Saved && !ReadOnly() ==> LastState() == state
      ensures outcome != Saved || ReadOnly() ==> LastState() == old(LastState())
      ensures outcome == Failed || outcome == TooLarge || ReadOnly() ==> Rows() == old(Rows())
      ensures outcome == Unknown && !old(Poisoned()) ==> InDoubt(LastState(), state)
      ensures OnLattice? ==> lattice.ready == old(lattice.ready)
      ensures OnLattice? && !ReadOnly() && Lattice.Dangles(old(LastState()), state) ==> outcome == Failed
    {
      hide Loads, WellKeyed, AllNamed, Lattice.KeepsEndpoints, Lattice.Dangles, Lattice.EndpointsExact, Lattice.Stored,
           Lattice.LatticeDb.FlagIsTrue;
      match this
      case OnRhiza(s) =>
        var saved := s.Save(state);
        outcome := match saved
          case Saved => Outcome.Saved
          case SaveFailed => Failed
          case SaveTooLarge => TooLarge
          case SaveUnknown => Unknown;
      case OnLattice(s) =>
        var saved := s.Save(state);
        outcome := if saved == Lattice.Committed then Saved else Failed;
    }
  }
}
