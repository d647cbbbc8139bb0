/** Migration to a new Rhiza database (pkg/yeoul/storage_migration.go): bounded chunks,
    a durable marker, and what an open can see after a crash at any step. */
module Migration {
  import opened Wrappers
  import opened Text
  import opened Sorting
  import opened EngineSpec
  import opened Storage
  import opened Rhiza

  const DELTA_LIMIT := 65536
  const RECORD_OVERHEAD := 512

  datatype Rec = Rec(key: Key, row: Row)

  // ----- records in order -----

  function RowsIn(records: seq<Rec>): Rows {
    if records == [] then map[]
    else RowsIn(records[..|records| - 1])[records[|records| - 1].key := records[|records| - 1].row]
  }

  lemma {:induction false} RowsInConcat(a: seq<Rec>, b: seq<Rec>)
    ensures RowsIn(a + b) == RowsIn(a) + RowsIn(b)
  {
    if b == [] {
      assert a + b == a;
    } else {
      var n := |b| - 1;
      RowsInConcat(a, b[..n]);
      assert (a + b)[..|a + b| - 1] == a + b[..n];
    }
  }

  lemma {:induction false} RowsInKeys(records: seq<Rec>)
    ensures forall k :: k in RowsIn(records) <==> exists i :: 0 <= i < |records| && records[i].key == k
  {
    if records != [] {
      var n := |records| - 1;
      RowsInKeys(records[..n]);
      forall k
        ensures k in RowsIn(records) <==> exists i :: 0 <= i < |records| && records[i].key == k
      {
        if i :| 0 <= i < |records[..n]| && records[..n][i].key == k {
          assert records[i].key == k;
        }
        if i :| 0 <= i < |records| && records[i].key == k {
          assert i < n ==> records[..n][i].key == k;
        }
      }
    }
  }

  /** The records of a full copy: the data in key order, then the metadata. */
  ghost predicate CopyOf(source: State, records: seq<Rec>) {
    records != [] && RowsIn(records) == SaveRows(Empty(), source) &&
    records[|records| - 1] == Rec(META, MetaRow(source)) && InKeyOrder(records[..|records| - 1])
  }

  /** Data records, strictly ordered by their composite keys, so that none is repeated. */
  ghost predicate InKeyOrder(records: seq<Rec>) {
    (forall i :: 0 <= i < |records| ==> IsRecord(records[i].key)) &&
    forall i, j :: 0 <= i < j < |records| ==> Less(Composite(records[i].key), Composite(records[j].key))
  }

  /** A copy that stopped between the first and the last chunk is no database: without
      its metadata record, Load refuses it. */
  lemma ProperPrefixRefused(source: State, records: seq<Rec>, n: nat)
    requires CopyOf(source, records) && 0 < n < |records|
    ensures forall s :: !Loads(RowsIn(records[..n]), s)
  {
    RowsInKeys(records[..n]);
    var rows := RowsIn(records[..n]);
    assert forall i :: 0 <= i < n ==> records[i] == records[..|records| - 1][i];
    assert META !in rows;
    assert records[..n][0].key in rows;
    assert rows != map[];
    hide At, Decodable;
  }

  /** A complete copy loads as the source. */
  lemma FullCopyLoads(source: State, records: seq<Rec>)
    requires CopyOf(source, records) && WellKeyed(source)
    ensures Loads(RowsIn(records), source)
  {
    hide Loads, WellKeyed, SaveRows;
    EmptyLoads();
    SaveLoads(map[], Empty(), source);
    assert map[] + SaveRows(Empty(), source) == SaveRows(Empty(), source);
  }

  /** The listed records are the rows whose keys came first. */
  ghost predicate ListedUpTo(rows: Rows, records: seq<Rec>, keys: seq<string>, n: nat)
    requires n <= |keys| && forall k :: k in rows ==> IsRecord(k)
  {
    |records| == n && (forall i :: 0 <= i < n ==> IsRecord(records[i].key) && Composite(records[i].key) == keys[i]) &&
    (forall k :: k in RowsIn(records) <==> k in rows && Composite(k) in keys[..n]) &&
    (forall k :: k in RowsIn(records) ==> RowsIn(records)[k] == rows[k])
  }

  /** The first half of seedRhizaInBoundedDeltas: list the delta from the empty state in
      key order and refuse a record that cannot fit a chunk. */
  method ListRecords(source: State, size: Rec -> nat) returns (r: Result<seq<Rec>>)
    ensures r.Ok? ==> CopyOf(source, r.value)
    ensures r.Ok? ==> forall i :: 0 <= i < |r.value| - 1 ==> size(r.value[i]) + RECORD_OVERHEAD <= DELTA_LIMIT
    ensures r.Err? ==> r.error == StorageFailed || r.error == Error.Canceled
  {
    hide Composite, Compose, LabelText, TagOf, SaveRows, Delta, MetaRow, Renders, ListedUpTo, RowsIn;
    var delta := BuildDelta(Empty(), source);
    ghost var rows := Delta(Empty(), source);
    RenderedAreRecords(delta, rows);
    var keys := SortIds(delta.Keys);
    var records: seq<Rec> := [];
    NothingListed(rows, keys);
    for i := 0 to |keys|
      invariant ListedUpTo(rows, records, keys, i)
      invariant forall j :: 0 <= j < |records| ==> size(records[j]) + RECORD_OVERHEAD <= DELTA_LIMIT
    {
      var canceled: bool := *;
      if canceled {
        return Err(Error.Canceled);
      }
      assert keys[i] in keys;
      ghost var key := KeyOf(delta, rows, keys[i]);
      var text, id := SplitLatticeKey(keys[i]);
      SplitsTo(keys[i], key, text, id);
      var record := Rec(Key(TagOf(text), id), delta[keys[i]]);
      if size(record) + RECORD_OVERHEAD > DELTA_LIMIT {
        return Err(StorageFailed);
      }
      ListedOne(rows, records, keys, i, key, record);
      records := records + [record];
    }
    AllListed(source, delta, rows, records, keys);
    return Ok(records + [Rec(META, MetaRow(source))]);
  }

  lemma RenderedAreRecords(delta: map<string, Row>, rows: Rows)
    requires Renders(delta, rows)
    ensures forall k :: k in rows ==> IsRecord(k) && Composite(k) in delta
  {
    hide Composite;
  }

  lemma NothingListed(rows: Rows, keys: seq<string>)
    requires forall k :: k in rows ==> IsRecord(k)
    ensures ListedUpTo(rows, [], keys, 0)
  {
  }

  lemma AllListed(source: State, delta: map<string, Row>, rows: Rows, records: seq<Rec>, keys: seq<string>)
    requires rows == Delta(Empty(), source) && forall k :: k in rows ==> IsRecord(k) && Composite(k) in delta
    requires ListedUpTo(rows, records, keys, |keys|) && (forall c :: c in keys <==> c in delta) && Sorted(keys, Less)
    ensures CopyOf(source, records + [Rec(META, MetaRow(source))])
  {
    hide Composite, MetaRow, SaveRows, Delta, Less;
    assert keys[..|keys|] == keys;
    assert RowsIn(records) == rows;
    var all := records + [Rec(META, MetaRow(source))];
    assert all[..|all| - 1] == records;
    SaveRowsAre(source);
  }

  lemma SaveRowsAre(source: State)
    ensures SaveRows(Empty(), source) == Delta(Empty(), source)[META := MetaRow(source)]
  {
  }

  lemma KeyOf(delta: map<string, Row>, rows: Rows, c: string) returns (k: Key)
    requires Renders(delta, rows) && c in delta
    ensures k in rows && IsRecord(k) && c == Composite(k) && delta[c] == rows[k]
  {
    hide Composite;
    k :| k in rows && IsRecord(k) && c == Composite(k);
  }

  lemma ListedOne(rows: Rows, records: seq<Rec>, keys: seq<string>, i: nat, key: Key, record: Rec)
    requires i < |keys| && key in rows && forall k :: k in rows ==> IsRecord(k)
    requires Composite(key) == keys[i] && record == Rec(key, rows[key]) && ListedUpTo(rows, records, keys, i)
    ensures ListedUpTo(rows, records + [record], keys, i + 1)
  {
    hide Composite;
    assert (records + [record])[..|records|] == records;
    assert keys[..i + 1] == keys[..i] + [keys[i]];
    forall k | k in rows && Composite(k) == keys[i]
      ensures k == key
    {
      CompositeInjective(k, key);
    }
  }

  // ----- chunks -----

  function Bytes(chunk: seq<Rec>, size: Rec -> nat): nat {
    if chunk == [] then 0 else Bytes(chunk[..|chunk| - 1], size) + size(chunk[|chunk| - 1]) + RECORD_OVERHEAD
  }

  function Joined(chunks: seq<seq<Rec>>): seq<Rec> {
    if chunks == [] then [] else Joined(chunks[..|chunks| - 1]) + chunks[|chunks| - 1]
  }

  /** A chunk is never empty, and stays within the limit unless it is a single record
      that exceeds it by itself. */
  predicate ChunkOk(chunk: seq<Rec>, size: Rec -> nat) {
    chunk != [] && (Bytes(chunk, size) <= DELTA_LIMIT || |chunk| == 1)
  }

  /** The inner loop: take records while they fit. */
  method NextChunk(records: seq<Rec>, start: nat, size: Rec -> nat) returns (end: nat)
    requires start < |records|
    ensures start < end <= |records| && ChunkOk(records[start..end], size)
    ensures end < |records| ==> Bytes(records[start..end + 1], size) > DELTA_LIMIT
  {
    end := start;
    var chunkBytes := 0;
    while end < |records|
      invariant start <= end <= |records| && chunkBytes == Bytes(records[start..end], size)
      invariant end > start ==> ChunkOk(records[start..end], size) && chunkBytes > 0
    {
      var next := size(records[end]) + RECORD_OVERHEAD;
      assert records[start..end + 1][..end - start] == records[start..end];
      if chunkBytes > 0 && chunkBytes + next > DELTA_LIMIT {
        break;
      }
      chunkBytes := chunkBytes + next;
      end := end + 1;
    }
  }

  lemma NoRows()
    ensures forall records: seq<Rec> :: records == [] ==> RowsIn(records) == map[]
  {
  }

  /** The outer loop of seedRhizaInBoundedDeltas. Whatever the service answers, the
      target holds a prefix of the records, and all of them when it succeeds. */
  method SeedChunks(svc: Service, records: seq<Rec>, size: Rec -> nat)
    returns (ok: bool, ghost chunks: seq<seq<Rec>>, ghost stored: nat, ghost steps: seq<Rows>)
    requires svc.Consistent() && svc.pending == None && svc.rows == map[]
    modifies svc
    ensures svc.Consistent() && stored <= |records| && svc.rows == RowsIn(records[..stored])
    ensures ok ==> stored == |records| && Joined(chunks) == records && svc.pending == None
    ensures forall i :: 0 <= i < |chunks| ==> ChunkOk(chunks[i], size)
    ensures forall i :: 0 <= i < |steps| ==> exists n :: 0 <= n <= |records| && steps[i] == RowsIn(records[..n])
  {
    hide Bytes, ChunkOk, RowsIn;
    chunks, stored, steps := [], 0, [];
    assert RowsIn(records[..0]) == map[] by {
      NoRows();
    }
    var start := 0;
    while start < |records|
      invariant start <= |records| && svc.Consistent() && svc.pending == None && svc.rows == RowsIn(records[..start])
      invariant Joined(chunks) == records[..start]
      invariant forall i :: 0 <= i < |chunks| ==> ChunkOk(chunks[i], size)
      invariant forall i :: 0 <= i < |steps| ==> exists n :: 0 <= n <= |records| && steps[i] == RowsIn(records[..n])
      decreases |records| - start
    {
      var end := NextChunk(records, start, size);
      var canceled: bool := *;
      if canceled {
        return false, chunks, start, steps;
      }
      ghost var chunk := records[start..end];
      var requestId := FreshRequest(svc);
      RowsInConcat(records[..start], chunk);
      assert records[..start] + chunk == records[..end];
      var outcome := Apply(svc, Request(requestId, RowsIn(records[start..end])));
      ghost var reached := if svc.rows == RowsIn(records[..start]) then start else end;
      steps := steps + [svc.rows];
      assert steps[|steps| - 1] == RowsIn(records[..reached]);
      if outcome != Done {
        return false, chunks, reached, steps;
      }
      assert (chunks + [chunk])[..|chunks|] == chunks;
      chunks := chunks + [chunk];
      start := end;
    }
    assert records[..|records|] == records;
    return true, chunks, |records|, steps;
  }

  // ----- the disk -----

  /** What the file system holds, and what it could hold after a crash: a marker that was
      created or removed without a directory sync may be there or not. */
  datatype View = View(owned: bool, marker: bool, markerAfterCrash: set<bool>, target: Option<Rows>)

  /** What an open of the target finds. Another owner or a marker refuses it. */
  function Opens(v: View): Option<Rows> {
    if v.owned || v.marker then None else v.target
  }

  /** The views a crash can leave: ownership drops, the marker is as last synced or as
      last written, and an unsynced target may be gone. */
  ghost predicate AfterCrash(v: View, w: View) {
    !w.owned && w.marker in v.markerAfterCrash && w.markerAfterCrash == {w.marker} &&
    (w.target == v.target || w.target == None)
  }

  /** An open sees exactly the state of the source, or nothing. */
  ghost predicate OpenSafe(v: View, sourceRows: Rows) {
    Opens(v).Some? ==> SameState(sourceRows, Opens(v).value)
  }

  ghost predicate SameState(sourceRows: Rows, rows: Rows) {
    exists s :: Loads(sourceRows, s) && Loads(rows, s)
  }

  /** Now, and after a crash right here, an open is safe. */
  ghost predicate Safe(v: View, sourceRows: Rows) {
    OpenSafe(v, sourceRows) && forall w :: AfterCrash(v, w) ==> OpenSafe(w, sourceRows)
  }

  lemma CrashStaysSafe(v: View, w: View, sourceRows: Rows)
    requires Safe(v, sourceRows) && AfterCrash(v, w)
    ensures Safe(w, sourceRows)
  {
    hide OpenSafe;
    forall x | AfterCrash(w, x)
      ensures OpenSafe(x, sourceRows)
    {
      assert AfterCrash(v, x);
    }
  }

  /** While the migration owns the target behind a durable marker, anything may happen
      to its rows. */
  lemma MarkedIsSafe(v: View, sourceRows: Rows)
    requires v.target == None || (v.marker && v.markerAfterCrash == {true})
    ensures Safe(v, sourceRows)
  {
    hide SameState;
  }

  lemma CompleteIsSafe(v: View, sourceRows: Rows)
    requires v.target.Some? && SameState(sourceRows, v.target.value)
    ensures Safe(v, sourceRows)
  {
    hide SameState;
  }

  class Disk {
    /** The source database, which is only read. */
    const sourceRows: Rows
    var owned: bool
    var marker: bool
    var markerAfterCrash: set<bool>
    var target: Service?
    /** Every state of the disk since the migration started. */
    ghost var views: seq<View>

    constructor (sourceRows: Rows, marker: bool)
      ensures this.sourceRows == sourceRows && !owned && target == null && this.marker == marker
      ensures markerAfterCrash == {marker} && views == []
    {
      this.sourceRows := sourceRows;
      owned, this.marker, markerAfterCrash, target := false, marker, {marker}, null;
      views := [];
    }

    ghost function Current(): View
      reads this, target
    {
      View(owned, marker, markerAfterCrash, if target == null then None else Some(target.rows))
    }

    /** At every step so far an open was safe, and a crash would have left it safe. */
    ghost predicate AlwaysSafe()
      reads this, target
    {
      (true in markerAfterCrash || false in markerAfterCrash) && Safe(Current(), sourceRows) && forall v :: v in views ==> Safe(v, sourceRows)
    }

    /** A crash, or none. It releases ownership and settles what was not synced. */
    method MayCrash() returns (crashed: bool)
      requires AlwaysSafe()
      modifies this
      ensures AlwaysSafe()
      ensures !crashed ==> unchanged(this)
      ensures crashed ==> AfterCrash(old(Current()), Current()) && views == old(views) + [Current()]
    {
      hide Safe;
      crashed := *;
      if crashed {
        ghost var before := Current();
        var settled :| settled in markerAfterCrash;
        owned, marker, markerAfterCrash := false, settled, {settled};
        if * {
          target := null;
        }
        CrashStaysSafe(before, Current(), sourceRows);
        views := views + [Current()];
      }
    }

    /** Take exclusive ownership, unless another process holds it. */
    method Claim() returns (ok: bool)
      requires AlwaysSafe() && !owned && target == null
      modifies this
      ensures AlwaysSafe() && owned == ok && unchanged(`marker, `markerAfterCrash, `target)
      ensures views == old(views) + [Current()]
    {
      hide Safe;
      ok := *;
      owned := ok;
      MarkedIsSafe(Current(), sourceRows);
      views := views + [Current()];
    }

    /** Create the marker file exclusively, before its directory is synced. */
    method CreateMarker() returns (ok: bool)
      requires AlwaysSafe() && target == null
      modifies `marker, `markerAfterCrash, `views
      ensures AlwaysSafe() && views == old(views) + [Current()]
      ensures ok ==> marker && !old(marker)
    {
      hide Safe;
      ok := false;
      if !marker {
        ok := *;
        var written: bool := *;
        if ok || written {
          marker, markerAfterCrash := true, markerAfterCrash + {true};
        }
      }
      MarkedIsSafe(Current(), sourceRows);
      views := views + [Current()];
    }

    method SyncMarker() returns (ok: bool)
      requires AlwaysSafe() && target == null && marker
      modifies `markerAfterCrash, `views
      ensures AlwaysSafe() && views == old(views) + [Current()]
      ensures ok ==> markerAfterCrash == {true}
    {
      hide Safe;
      ok := *;
      if ok {
        markerAfterCrash := {true};
      }
      MarkedIsSafe(Current(), sourceRows);
      views := views + [Current()];
    }

    /** Make the target directory and an empty database in it. */
    method MakeTarget()
      requires AlwaysSafe() && target == null && marker && markerAfterCrash == {true}
      modifies `target, `views
      ensures AlwaysSafe() && views == old(views) + [Current()]
      ensures target != null && fresh(target) && target.Consistent() && target.pending == None && target.rows == map[]
    {
      hide Safe;
      target := new Service();
      MarkedIsSafe(Current(), sourceRows);
      views := views + [Current()];
    }

    /** Seed the target; every acknowledged or unknown request leaves a view. */
    method SeedTarget(records: seq<Rec>, size: Rec -> nat) returns (ok: bool)
      requires AlwaysSafe() && target != null && marker && markerAfterCrash == {true}
      requires target.Consistent() && target.pending == None && target.rows == map[]
      modifies `views, target
      ensures AlwaysSafe() && old(views) <= views && target.Consistent()
      ensures ok ==> target.rows == RowsIn(records) && target.pending == None
    {
      hide Safe, RowsIn;
      ghost var chunks, stored, steps;
      ok, chunks, stored, steps := SeedChunks(target, records, size);
      assert records[..|records|] == records;
      ghost var now := Current();
      ghost var seen := seq(|steps|, i requires 0 <= i < |steps| => now.(target := Some(steps[i])));
      forall v | v in seen
        ensures Safe(v, sourceRows)
      {
        MarkedIsSafe(v, sourceRows);
      }
      MarkedIsSafe(Current(), sourceRows);
      views := views + seen + [Current()];
    }

    /** Removing the marker is what publishes the target. */
    method RemoveMarker() returns (ok: bool)
      requires AlwaysSafe() && target != null && SameState(sourceRows, target.rows)
      modifies `marker, `markerAfterCrash, `views
      ensures AlwaysSafe() && views == old(views) + [Current()]
      ensures ok ==> !marker
    {
      hide Safe, SameState;
      ok := *;
      if ok {
        marker, markerAfterCrash := false, markerAfterCrash + {false};
      }
      CompleteIsSafe(Current(), sourceRows);
      views := views + [Current()];
    }

    method SyncRemoved() returns (ok: bool)
      requires AlwaysSafe() && target != null && SameState(sourceRows, target.rows) && !marker
      modifies `markerAfterCrash, `views
      ensures AlwaysSafe() && views == old(views) + [Current()]
      ensures ok ==> markerAfterCrash == {false}
    {
      hide Safe, SameState;
      ok := *;
      if ok {
        markerAfterCrash := {false};
      }
      CompleteIsSafe(Current(), sourceRows);
      views := views + [Current()];
    }

    /** The deferred release of ownership. */
    method Release()
      requires AlwaysSafe()
      requires target == null || SameState(sourceRows, target.rows) || (marker && markerAfterCrash == {true})
      modifies `owned, `views
      ensures AlwaysSafe() && !owned && views == old(views) + [Current()]
    {
      hide Safe, SameState;
      owned := false;
      if target == null || !SameState(sourceRows, target.rows) {
        MarkedIsSafe(Current(), sourceRows);
      } else {
        CompleteIsSafe(Current(), sourceRows);
      }
      views := views + [Current()];
    }
  }

  datatype Outcome = Migrated | Failed | Crashed

  /** Everything up to the durable marker. */
  method ClaimTarget(disk: Disk) returns (outcome: Option<Outcome>)
    requires disk.AlwaysSafe() && !disk.owned && disk.target == null
    modifies disk
    ensures disk.AlwaysSafe() && old(disk.views) <= disk.views && disk.target == null
    ensures outcome.None? ==> disk.owned && disk.marker && disk.markerAfterCrash == {true}
    ensures outcome.Some? ==> outcome.value != Migrated
  {
    hide Safe;
    var claimed := disk.Claim();
    if !claimed {
      return Some(Failed);
    }
    var crashed := disk.MayCrash();
    if crashed {
      return Some(Crashed);
    }
    var created := disk.CreateMarker();
    crashed := disk.MayCrash();
    if crashed {
      return Some(Crashed);
    }
    if !created {
      disk.Release();
      return Some(Failed);
    }
    var synced := disk.SyncMarker();
    crashed := disk.MayCrash();
    if crashed {
      return Some(Crashed);
    }
    if !synced {
      disk.Release();
      return Some(Failed);
    }
    return None;
  }

  /** Load the copy twice, before and after reopening, and compare it with the source. A
      copy that holds every record is never rejected: only a failed load stops it. */
  method Verify(svc: Service, source: State, ghost records: seq<Rec>) returns (r: Result<bool>)
    requires svc.Consistent() && svc.pending == None && CopyOf(source, records) && WellKeyed(source)
    ensures r == Ok(true) ==> Loads(svc.rows, source)
    ensures r.Ok? && svc.rows == RowsIn(records) ==> r.value
  {
    hide Loads, CopyOf, WellKeyed, RowsIn;
    FullCopyLoads(source, records);
    var seeded := new RhizaStore(svc, false);
    var first := seeded.Load();
    if first.Err? {
      return Err(first.error);
    }
    if svc.rows == RowsIn(records) {
      LoadsUnique(svc.rows, first.value, source);
    }
    if first.value != source {
      return Ok(false);
    }
    var reopened := new RhizaStore(svc, false);
    var second := reopened.Load();
    if second.Err? {
      return Err(second.error);
    }
    if svc.rows == RowsIn(records) {
      LoadsUnique(svc.rows, second.value, source);
    }
    return Ok(second.value == source);
  }

  /** Make the target, seed it and check it. */
  method FillTarget(disk: Disk, source: State, size: Rec -> nat) returns (outcome: Option<Outcome>)
    requires disk.AlwaysSafe() && disk.owned && disk.marker && disk.markerAfterCrash == {true} && disk.target == null
    requires Loads(disk.sourceRows, source)
    modifies disk
    ensures disk.AlwaysSafe() && old(disk.views) <= disk.views
    ensures outcome.None? ==> disk.owned && disk.marker && disk.markerAfterCrash == {true}
    ensures outcome.None? ==> disk.target != null && SameState(disk.sourceRows, disk.target.rows)
    ensures outcome.Some? ==> outcome.value != Migrated
  {
    hide Safe, Loads, RowsIn, CopyOf, WellKeyed;
    LoadedIsWellKeyed(disk.sourceRows, source);
    disk.MakeTarget();
    var crashed := disk.MayCrash();
    if crashed {
      return Some(Crashed);
    }
    var records := ListRecords(source, size);
    if records.Err? {
      disk.Release();
      return Some(Failed);
    }
    var seeded := disk.SeedTarget(records.value, size);
    crashed := disk.MayCrash();
    if crashed {
      return Some(Crashed);
    }
    if !seeded {
      disk.Release();
      return Some(Failed);
    }
    var same := Verify(disk.target, source, records.value);
    if same != Ok(true) {
      disk.Release();
      return Some(Failed);
    }
    assert SameState(disk.sourceRows, disk.target.rows);
    return None;
  }

  /** publishMigratedDatabase */
  method Publish(disk: Disk) returns (outcome: Outcome)
    requires disk.AlwaysSafe() && disk.owned && disk.marker && disk.markerAfterCrash == {true}
    requires disk.target != null && SameState(disk.sourceRows, disk.target.rows)
    modifies disk
    ensures disk.AlwaysSafe() && old(disk.views) <= disk.views
    ensures outcome == Migrated ==> disk.target != null && !disk.owned && !disk.marker && disk.markerAfterCrash == {false}
    ensures outcome == Migrated ==> SameState(disk.sourceRows, disk.target.rows)
  {
    hide Safe, SameState;
    var canceled: bool := *;
    if canceled {
      disk.Release();
      return Failed;
    }
    var removed := disk.RemoveMarker();
    var crashed := disk.MayCrash();
    if crashed {
      return Crashed;
    }
    if !removed {
      disk.Release();
      return Failed;
    }
    var synced := disk.SyncRemoved();
    crashed := disk.MayCrash();
    if crashed {
      return Crashed;
    }
    disk.Release();
    return if synced then Migrated else Failed;
  }

  /** MigrateLatticeToRhiza: all or nothing. At every step, and after a crash at any
      step, an open of the target is refused, finds nothing, or sees exactly the state of
      the source; after success it sees that state. */
  method MigrateLatticeToRhiza(disk: Disk, size: Rec -> nat) returns (outcome: Outcome)
    requires !disk.owned && disk.target == null && disk.markerAfterCrash == {disk.marker} && disk.views == []
    modifies disk
    ensures disk.AlwaysSafe()
    ensures outcome == Migrated ==>
      Opens(disk.Current()).Some? && SameState(disk.sourceRows, Opens(disk.Current()).value) && disk.markerAfterCrash == {false}
  {
    hide Safe, Loads, SameState;
    MarkedIsSafe(disk.Current(), disk.sourceRows);
    var stopped := ClaimTarget(disk);
    if stopped.Some? {
      return stopped.value;
    }
    var source := DecodeRows(disk.sourceRows);
    if source.Err? {
      disk.Release();
      return Failed;
    }
    stopped := FillTarget(disk, source.value, size);
    if stopped.Some? {
      return stopped.value;
    }
    outcome := Publish(disk);
  }
}
