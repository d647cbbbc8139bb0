/** The Rhiza adapter and store (internal/storage/rhiza/rhiza.go,
    pkg/yeoul/store_rhiza.go). The database service is the environment: it may
    acknowledge a request, refuse it, or leave its outcome unknown. */
module Rhiza {
  import opened Wrappers
  import opened Text
  import opened Identity
  import opened Records
  import opened EngineSpec
  import opened Storage

  datatype Reply = Committed | NotCommitted | DefiniteError | CommitUnknown

  datatype RequestState = StateCommitted | StateRejected | StatePending | StatusError

  datatype Request = Request(id: string, batch: Rows)

  /** The database service. Its promises: a request ID takes effect at most once, an
      acknowledged request has taken effect, and a refused one has not and never will. A
      request whose outcome is unknown may still be in flight, and commit later. */
  class Service {
    var rows: Rows
    var catalog: seq<set<Key>>
    var committed: set<string>
    var pending: Option<Request>

    constructor ()
      ensures rows == map[] && catalog == [] && committed == {} && pending == None
    {
      rows, catalog, committed, pending := map[], [], {}, None;
    }

    /** The catalog names exactly the stored records, and what is in flight is not
        committed. */
    ghost predicate Consistent()
      reads this
    {
      Named(catalog) == rows.Keys && (pending.Some? ==> pending.value.id !in committed)
    }

    twostate predicate TookEffect(request: Request)
      reads this
    {
      rows == old(rows) + request.batch && catalog == old(catalog) + [request.batch.Keys] &&
      committed == old(committed) + {request.id} && pending == None
    }

    method Commit(request: Request)
      requires Consistent()
      modifies this
      ensures Consistent() && TookEffect(request)
    {
      NamedMore(catalog, request.batch.Keys);
      rows, catalog, committed := rows + request.batch, catalog + [request.batch.Keys], committed + {request.id};
      pending := None;
    }

    /** At any moment a request in flight may commit. */
    method Settle()
      requires Consistent()
      modifies this
      ensures Consistent() && (unchanged(this) || (old(pending).Some? && TookEffect(old(pending).value)))
    {
      var commits: bool := *;
      if pending.Some? && commits {
        Commit(pending.value);
      }
    }

    /** The process that sent a request in flight ends: the request commits now or never. */
    method Shutdown()
      requires Consistent()
      modifies this
      ensures Consistent() && pending == None
      ensures unchanged(`rows, `catalog, `committed) || (old(pending).Some? && TookEffect(old(pending).value))
    {
      Settle();
      pending := None;
    }

    method GraphExecute(request: Request) returns (reply: Reply)
      requires Consistent() && (pending.Some? ==> pending.value == request)
      modifies this
      ensures Consistent() && (pending.Some? ==> reply == CommitUnknown && pending.value == request)
      ensures request.id in old(committed) ==> unchanged(this) && (reply == Committed || reply == CommitUnknown)
      ensures request.id !in old(committed) ==>
        match reply
        case Committed => TookEffect(request)
        case CommitUnknown => TookEffect(request) || unchanged(`rows, `catalog, `committed)
        case _ => unchanged(`rows, `catalog, `committed)
    {
      if request.id in committed {
        reply :| reply == Committed || reply == CommitUnknown;
        return;
      }
      if * {
        Commit(request);
        reply :| reply == Committed || reply == CommitUnknown;
      } else {
        reply :| reply != Committed;
        var inFlight: bool := *;
        pending := if reply == CommitUnknown && inFlight then Some(request) else None;
      }
    }

    method RequestStatus(request: Request) returns (status: RequestState)
      requires Consistent() && (pending.Some? ==> pending.value == request)
      modifies this
      ensures Consistent() && (pending.Some? ==> pending.value == request)
      ensures unchanged(`rows, `catalog, `committed) || (request.id !in old(committed) && TookEffect(request))
      ensures status == StateCommitted ==> request.id in committed
      ensures status == StateRejected ==> request.id !in committed && pending == None
    {
      Settle();
      if request.id in committed {
        status :| status != StateRejected;
      } else {
        status :| status != StateCommitted;
        if status == StateRejected {
          pending := None;
        }
      }
    }

    /** A page of catalog events. A short page does not mean the end of the stream. */
    method StreamRead(after: nat) returns (ok: bool, events: seq<set<Key>>)
      requires after <= |catalog|
      ensures events <= catalog[after..] && |events| <= PAGE_SIZE
      ensures ok && after < |catalog| ==> events != []
    {
      ok := *;
      var left := |catalog| - after;
      if ok && left > 0 {
        var n :| 1 <= n <= left && n <= PAGE_SIZE;
        events := catalog[after..after + n];
      } else {
        events := [];
      }
    }
  }

  const PAGE_SIZE := 64

  /** The keys the events name. */
  ghost function Named(events: seq<set<Key>>): set<Key> {
    if events == [] then {} else Named(events[..|events| - 1]) + events[|events| - 1]
  }

  lemma NamedMore(events: seq<set<Key>>, keys: set<Key>)
    ensures Named(events + [keys]) == Named(events) + keys
  {
    assert (events + [keys])[..|events|] == events;
  }

  lemma {:induction false} NamedConcat(a: seq<set<Key>>, b: seq<set<Key>>)
    ensures Named(a + b) == Named(a) + Named(b)
  {
    if b == [] {
      assert a + b == a;
    } else {
      var front := b[..|b| - 1];
      NamedConcat(a, front);
      assert a + b == (a + front) + [b[|b| - 1]];
      NamedMore(a + front, b[|b| - 1]);
    }
  }

  // ----- Apply: execute, query the status, retry once -----

  datatype Applied = Done | Refused | TooLarge | Unknown

  /** One atomic change. Anything but Unknown tells the caller truthfully whether the
      change was made, and leaves nothing in flight; the retry under the same request ID
      cannot apply it twice. */
  method Apply(svc: Service, request: Request) returns (outcome: Applied)
    requires svc.Consistent() && svc.pending == None && request.id !in svc.committed
    modifies svc
    ensures svc.Consistent() && (svc.pending.Some? ==> outcome == Unknown && svc.pending.value == request)
    ensures outcome == Done ==> svc.rows == old(svc.rows) + request.batch
    ensures outcome == Refused || outcome == TooLarge || svc.pending.Some? ==> svc.rows == old(svc.rows)
    ensures svc.rows == old(svc.rows) || svc.rows == old(svc.rows) + request.batch
  {
    var tooLarge: bool := *;
    if tooLarge {
      return TooLarge;
    }
    var reply := svc.GraphExecute(request);
    if reply != CommitUnknown {
      return if reply == Committed then Done else Refused;
    }
    var status := svc.RequestStatus(request);
    if status == StateCommitted {
      return Done;
    } else if status == StateRejected {
      return Refused;
    }
    reply := svc.GraphExecute(request);
    if reply == Committed {
      return Done;
    } else if reply == NotCommitted {
      return Refused;
    }
    return Unknown;
  }

  /** Records: replay the whole catalog, then fetch each named record. */
  method ReadRecords(svc: Service) returns (r: Result<Rows>)
    requires svc.Consistent()
    ensures r.Ok? ==> r.value == svc.rows
  {
    var keys: set<Key> := {};
    var after := 0;
    while true
      invariant after <= |svc.catalog| && keys == Named(svc.catalog[..after])
      decreases |svc.catalog| - after
    {
      var ok, events := svc.StreamRead(after);
      if !ok {
        return Err(StorageFailed);
      }
      if events == [] {
        break;
      }
      keys := keys + FoldKeys(events);
      NamedConcat(svc.catalog[..after], events);
      assert svc.catalog[..after] + events == svc.catalog[..after + |events|];
      after := after + |events|;
    }
    assert svc.catalog[..after] == svc.catalog;
    if after == 0 && META in svc.rows {
      return Err(StorageFailed);
    }
    var rows: Rows := map[];
    var todo := keys;
    while todo != {}
      invariant todo <= keys == svc.rows.Keys
      invariant rows.Keys == keys - todo
      invariant forall k :: k in rows ==> rows[k] == svc.rows[k]
      decreases |todo|
    {
      var k :| k in todo;
      var failed: bool := *;
      if failed {
        return Err(StorageFailed);
      }
      rows := rows[k := svc.rows[k]];
      todo := todo - {k};
    }
    return Ok(rows);
  }

  function FoldKeys(events: seq<set<Key>>): (keys: set<Key>)
    ensures keys == Named(events)
  {
    if events == [] then {} else FoldKeys(events[..|events| - 1]) + events[|events| - 1]
  }

  // ----- the store -----

  /** A save in doubt: the rows load as the state before it or as the state after it, and a
      request still in flight leads from the one to the other. */
  ghost predicate InDoubt(svc: Service, prev: State, next: State)
    reads svc
  {
    if svc.pending.Some? then Loads(svc.rows, prev) && Loads(svc.rows + svc.pending.value.batch, next)
    else Loads(svc.rows, prev) || Loads(svc.rows, next)
  }

  datatype SaveOutcome = Saved | SaveFailed | SaveTooLarge | SaveUnknown

  class RhizaStore {
    const svc: Service
    const readOnly: bool
    var lastState: State
    var loaded: bool
    var poisoned: bool

    /** A loaded store that is not poisoned knows exactly what is on disk. */
    ghost predicate Valid()
      reads this, svc
    {
      svc.Consistent() && (!loaded ==> lastState == Empty()) && (!poisoned ==> svc.pending == None) &&
      (loaded && !poisoned ==> Loads(svc.rows, lastState))
    }

    constructor (svc: Service, readOnly: bool)
      requires svc.Consistent() && svc.pending == None
      ensures Valid() && this.svc == svc && this.readOnly == readOnly && !loaded && !poisoned
    {
      this.svc, this.readOnly := svc, readOnly;
      lastState, loaded, poisoned := Empty(), false, false;
    }

    /** Load decodes every row, in any order, and refuses rows it does not know and
        records without state metadata. */
    method Load() returns (r: Result<State>)
      requires Valid()
      modifies this
      ensures Valid() && poisoned == old(poisoned)
      ensures r.Ok? ==> loaded && lastState == r.value && Loads(svc.rows, r.value)
      ensures r.Err? ==> lastState == old(lastState) && loaded == old(loaded)
    {
      var read := ReadRecords(svc);
      if read.Err? {
        return Err(StorageFailed);
      }
      var decoded := DecodeRows(read.value);
      if decoded.Ok? {
        lastState, loaded := decoded.value, true;
      }
      return decoded;
    }

    /** Save sends the delta to the last saved state. If the outcome stays unknown the
        store is poisoned and never writes again. */
    method Save(state: State) returns (outcome: SaveOutcome)
      requires Valid() && WellKeyed(state) && (loaded || svc.rows == map[])
      modifies this, svc
      ensures Valid()
      ensures old(poisoned) ==> outcome == SaveUnknown && unchanged(this) && unchanged(svc)
      ensures outcome == SaveUnknown ==> poisoned && lastState == old(lastState)
      ensures outcome == SaveUnknown && !old(poisoned) ==> InDoubt(svc, lastState, state)
      ensures old(loaded) ==> loaded
      ensures outcome != SaveUnknown ==> !poisoned
      ensures outcome == SaveFailed || outcome == SaveTooLarge ==> lastState == old(lastState) && loaded == old(loaded) && svc.rows == old(svc.rows)
      ensures outcome == Saved && !readOnly ==> lastState == state && (loaded || state == Empty())
      ensures readOnly ==> unchanged(this) && unchanged(svc)
    {
      hide Loads, WellKeyed, MetaRow, KeysOf, Renders, Delta, At;
      if poisoned {
        return SaveUnknown;
      }
      if readOnly || lastState == state {
        return Saved;
      }
      var prev := if loaded then lastState else Empty();
      var delta := BuildDelta(prev, state);
      var rows := RowsOf(delta, Delta(prev, state));
      rows := rows[META := MetaRow(state)];
      var requestId := FreshRequest(svc);
      EmptyLoads();
      SaveLoads(svc.rows, prev, state);
      var outcomeOf := Apply(svc, Request(requestId, rows));
      match outcomeOf {
        case Done =>
          lastState, loaded := state, true;
          return Saved;
        case Unknown =>
          poisoned := true;
          return SaveUnknown;
        case TooLarge =>
          return SaveTooLarge;
        case _ =>
          return SaveFailed;
      }
    }
  }

  /** A random request ID: assumed different from every committed one. */
  method FreshRequest(svc: Service) returns (id: string)
    ensures id !in svc.committed
  {
    ghost var n := NextFree(svc.committed, "yeoul", 0);
    assert IdText("yeoul", n) !in svc.committed;
    id :| id !in svc.committed;
  }

  /** The decoding loop of Load. */
  method DecodeRows(rows: Rows) returns (r: Result<State>)
    ensures r.Ok? ==> Loads(rows, r.value)
    ensures r.Err? ==> forall s :: !Loads(rows, s)
  {
    hide At, Fits, Insert;
    var state := Empty();
    EmptyHasNothing();
    var metaFound := false;
    var todo := rows.Keys;
    while todo != {}
      invariant todo <= rows.Keys
      invariant forall k :: At(state, k) == if k != META && k !in todo && Live(rows, k) then Some(rows[k].payload) else None
      invariant forall k :: k !in todo && Live(rows, k) ==> if k == META then MetaOk(rows[k]) else Fits(k, rows[k].payload)
      invariant metaFound <==> META !in todo && Live(rows, META)
      invariant state.sequence == if metaFound then rows[META].payload.sequence else 0
      decreases |todo|
    {
      var k :| k in todo;
      var row := rows[k];
      if !row.deleted {
        if k == META {
          if !(row.payload.PMeta? && row.payload.version == STATE_VERSION) {
            return Err(StorageFailed);
          }
          SequenceIsNoRecord(state, row.payload.sequence);
          state, metaFound := state.(sequence := row.payload.sequence), true;
        } else {
          if !Fits(k, row.payload) {
            return Err(StorageFailed);
          }
          forall j {
            InsertAt(state, k, row.payload, j);
          }
          state := Insert(state, k, row.payload);
        }
      }
      todo := todo - {k};
    }
    if rows != map[] && !metaFound {
      return Err(StorageFailed);
    }
    return Ok(state);
  }

  lemma EmptyHasNothing()
    ensures forall k :: At(Empty(), k).None?
  {
  }

  lemma SequenceIsNoRecord(s: State, n: nat)
    ensures forall k :: At(s.(sequence := n), k) == At(s, k)
  {
  }
}
